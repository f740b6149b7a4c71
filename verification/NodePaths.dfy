/** POSIX path normalisation as Node's `path.posix` does it, and import resolution on top of it (scope.js). */
module NodePaths {
  import opened Common
  import opened Paths

  /** What one component does to those collected so far; a rooted path cannot climb above its root. */
  function Climb(parts: seq<string>, raw: string, rooted: bool): seq<string> {
    if raw == "" || raw == "." then parts
    else if raw != ".." then parts + [raw]
    else if parts != [] && parts[|parts| - 1] != ".." then parts[..|parts| - 1]
    else if rooted then parts
    else parts + [".."]
  }

  function Reduce(parts: seq<string>, raws: seq<string>, rooted: bool): seq<string>
    decreases raws
  {
    if raws == [] then parts else Reduce(Climb(parts, raws[0], rooted), raws[1..], rooted)
  }

  predicate Rooted(path: string) {
    path != "" && path[0] == '/'
  }

  predicate Trailing(path: string) {
    path != "" && path[|path| - 1] == '/'
  }

  function Spell(parts: seq<string>, rooted: bool, trailing: bool): string {
    if parts == [] && rooted then "/"
    else if parts == [] then (if trailing then "./" else ".")
    else (if rooted then "/" else "") + Join(parts) + (if trailing then "/" else "")
  }

  /** `path.posix.normalize`. */
  function Normalize(path: string): string {
    if path == "" then "." else Spell(Reduce([], Split(path), Rooted(path)), Rooted(path), Trailing(path))
  }

  /** `path.posix.join` of two parts that are not empty. */
  function JoinPath(a: string, b: string): string {
    Normalize(a + "/" + b)
  }

  /** The position of the slash in front of the last component, ignoring trailing slashes. */
  function LastSlash(path: string, i: nat, trailing: bool): (at: Option<nat>)
    requires i < |path|
    ensures at.Some? ==> 0 < at.value <= i && path[at.value] == '/'
  {
    if i == 0 then None
    else if path[i] != '/' then LastSlash(path, i - 1, false)
    else if trailing then LastSlash(path, i - 1, true)
    else Some(i)
  }

  /** `path.posix.dirname`. */
  function Directory(path: string): string {
    if path == "" then "."
    else
      match LastSlash(path, |path| - 1, true)
      case None => if Rooted(path) then "/" else "."
      case Some(i) => if Rooted(path) && i == 1 then "//" else path[..i]
  }

  /** The files an import of `spec` in `from` may mean, in the order they are tried. */
  function Candidates(from: string, spec: string): seq<string> {
    var base := Normalize(JoinPath(Directory(from), spec));
    [base, base + ".js", base + ".mjs", base + ".cjs", JoinPath(base, "index.js")]
  }

  function FirstIn(candidates: seq<string>, inventory: set<string>): (r: Option<string>)
    ensures r.None? <==> forall i :: 0 <= i < |candidates| ==> candidates[i] !in inventory
    ensures r.Some? ==> r.value in inventory
    ensures r.Some? ==> exists i :: 0 <= i < |candidates| && candidates[i] == r.value
                                    && forall k :: 0 <= k < i ==> candidates[k] !in inventory
  {
    if candidates == [] then None
    else if candidates[0] in inventory then Some(candidates[0])
    else
      var r := FirstIn(candidates[1..], inventory);
      assert forall i :: 0 < i < |candidates| ==> candidates[i] == candidates[1..][i - 1];
      r
  }

  /** `resolveImport`: only relative imports, and only files of the inventory. */
  function ResolveImport(from: string, spec: string, inventory: set<string>): (r: Option<string>)
    ensures r.Some? ==> r.value in inventory && spec != "" && spec[0] == '.'
  {
    if spec == "" || spec[0] != '.' then None else FirstIn(Candidates(from, spec), inventory)
  }

  // ---- Normalising twice changes nothing ----

  /** Normal components: no empty ones and no ".", and ".." only in front of a relative path. */
  ghost predicate Normal(parts: seq<string>, rooted: bool) {
    && (forall i :: 0 <= i < |parts| ==> parts[i] != "" && parts[i] != "." && '/' !in parts[i])
    && (forall i :: 0 <= i < |parts| && parts[i] == ".." ==> !rooted && (i > 0 ==> parts[i - 1] == ".."))
  }

  lemma {:induction false} ReduceNormal(parts: seq<string>, raws: seq<string>, rooted: bool)
    requires Normal(parts, rooted) && SlashFree(raws)
    ensures Normal(Reduce(parts, raws, rooted), rooted)
    decreases raws
  {
    if raws != [] {
      ReduceNormal(Climb(parts, raws[0], rooted), raws[1..], rooted);
    }
  }

  /** Normal components are collected as they stand. */
  lemma {:induction false} ReduceKeeps(parts: seq<string>, raws: seq<string>, rooted: bool)
    requires Normal(parts + raws, rooted)
    ensures Reduce(parts, raws, rooted) == parts + raws
    decreases raws
  {
    if raws == [] {
      assert parts + raws == parts;
    } else {
      var raw := raws[0];
      assert (parts + raws)[|parts|] == raw;
      if raw == ".." && parts != [] {
        assert (parts + raws)[|parts| - 1] == parts[|parts| - 1];
      }
      assert Climb(parts, raw, rooted) == parts + [raw];
      assert (parts + [raw]) + raws[1..] == parts + raws;
      ReduceKeeps(parts + [raw], raws[1..], rooted);
    }
  }

  lemma {:induction false} ReduceAppend(parts: seq<string>, a: seq<string>, b: seq<string>, rooted: bool)
    ensures Reduce(parts, a + b, rooted) == Reduce(Reduce(parts, a, rooted), b, rooted)
    decreases a
  {
    if a == [] {
      assert a + b == b;
    } else {
      assert (a + b)[1..] == a[1..] + b;
      ReduceAppend(Climb(parts, a[0], rooted), a[1..], b, rooted);
    }
  }

  lemma {:induction false} JoinEnds(parts: seq<string>)
    requires parts != [] && forall i :: 0 <= i < |parts| ==> parts[i] != "" && '/' !in parts[i]
    ensures Join(parts) != "" && Join(parts)[0] != '/' && Join(parts)[|Join(parts)| - 1] != '/'
  {
    assert parts[0][0] in parts[0] && parts[0][|parts[0]| - 1] in parts[0];
    if |parts| > 1 {
      JoinEnds(parts[1..]);
    }
  }

  /** The components of a path that was spelled from normal components. */
  lemma SplitSpelled(parts: seq<string>, rooted: bool, trailing: bool)
    requires parts != [] && Normal(parts, rooted)
    ensures var path := Spell(parts, rooted, trailing);
            && path != "" && Rooted(path) == rooted && Trailing(path) == trailing
            && Split(path) == (if rooted then [""] else []) + parts + (if trailing then [""] else [])
  {
    hide Join, Split;
    JoinEnds(parts);
    SplitJoin(parts);
    var j := Join(parts);
    var tail := j + (if trailing then "/" else "");
    assert Split(tail) == parts + (if trailing then [""] else []) by {
      SplitWhole("");
      SplitAppend(j, "");
      assert j + "/" + "" == j + "/" && j + "" == j;
    }
    assert Spell(parts, rooted, trailing) == (if rooted then "/" else "") + tail;
    if rooted {
      SplitWhole("");
      SplitAppend("", tail);
      assert "" + "/" + tail == "/" + tail;
      assert [""] + (parts + (if trailing then [""] else [])) == [""] + parts + (if trailing then [""] else []);
    } else {
      assert "" + tail == tail && [] + parts == parts;
    }
  }

  lemma ReduceSpelled(parts: seq<string>, rooted: bool, trailing: bool)
    requires Normal(parts, rooted)
    ensures Reduce([], (if rooted then [""] else []) + parts + (if trailing then [""] else []), rooted) == parts
  {
    var front, back := if rooted then [""] else [], if trailing then [""] else [];
    ReduceAppend([], front + parts, back, rooted);
    ReduceAppend([], front, parts, rooted);
    assert Reduce([], front, rooted) == [];
    assert [] + parts == parts;
    ReduceKeeps([], parts, rooted);
    assert Reduce(parts, back, rooted) == parts;
  }

  lemma SpelledNothing(rooted: bool, trailing: bool)
    ensures Reduce([], Split(Spell([], rooted, trailing)), rooted) == []
    ensures Rooted(Spell([], rooted, trailing)) == rooted
  {
    SplitWhole("");
    SplitWhole(".");
    SplitAppend("", "");
    SplitAppend(".", "");
    assert "" + "/" + "" == "/" && "." + "/" + "" == "./";
    assert Split("/") == ["", ""] && Split(".") == ["."] && Split("./") == [".", ""];
    assert Reduce([], ["", ""], true) == [];
    assert Reduce([], ["."], false) == [];
    assert Reduce([], [".", ""], false) == [];
  }

  lemma NormalizeNothing(rooted: bool, trailing: bool)
    ensures Normalize(Spell([], rooted, trailing)) == Spell([], rooted, trailing)
  {
    hide Reduce, Split;
    SpelledNothing(rooted, trailing);
  }

  lemma NormalizeIdempotent(path: string)
    ensures Normalize(Normalize(path)) == Normalize(path)
  {
    hide Split, Reduce, Join;
    if path == "" {
      NormalizeNothing(false, false);
    } else {
      var rooted, trailing := Rooted(path), Trailing(path);
      var parts := Reduce([], Split(path), rooted);
      SplitSlashFree(path);
      ReduceNormal([], Split(path), rooted);
      var next := Spell(parts, rooted, trailing);
      assert Normalize(path) == next;
      if parts != [] {
        SplitSpelled(parts, rooted, trailing);
        ReduceSpelled(parts, rooted, trailing);
      } else {
        NormalizeNothing(rooted, trailing);
      }
    }
  }

  /** An import is looked up where walking its components from the importing file's directory leads. */
  lemma ImportWalks(from: string, spec: string)
    requires spec != ""
    ensures var d := Directory(from);
            Candidates(from, spec)[0]
            == Spell(Reduce(Reduce([], Split(d), Rooted(d)), Split(spec), Rooted(d)), Rooted(d), Trailing(spec))
  {
    hide Split, Reduce, Spell;
    var d := Directory(from);
    assert d != "";
    SplitAppend(d, spec);
    ReduceAppend([], Split(d), Split(spec), Rooted(d));
    NormalizeIdempotent(d + "/" + spec);
  }

  lemma {:induction false} LastSlashOf(directory: string, name: string, n: nat)
    requires directory != "" && '/' !in name && 0 < n <= |name|
    ensures LastSlash(directory + "/" + name, |directory| + n, false) == Some(|directory|)
    decreases n
  {
    var path := directory + "/" + name;
    assert path[|directory| + n] == name[n - 1] && name[n - 1] in name;
    if n == 1 {
      assert path[|directory|] == '/';
    } else {
      LastSlashOf(directory, name, n - 1);
    }
  }

  /** The directory of a path with a plain last component. */
  lemma DirectoryOf(directory: string, name: string)
    requires directory != "" && !Rooted(directory) && name != "" && '/' !in name
    ensures Directory(directory + "/" + name) == directory
  {
    var path := directory + "/" + name;
    var i := |path| - 1;
    assert path[i] == name[|name| - 1] && name[|name| - 1] in name;
    assert path[|directory|] == '/';
    if |name| == 1 {
      assert i - 1 == |directory|;
    } else {
      LastSlashOf(directory, name, |name| - 1);
    }
    assert LastSlash(path, i, true) == Some(|directory|);
    assert path[..|directory|] == directory;
    assert path[0] == directory[0];
  }

  // ---- What an import resolves to ----

  /** `index.js` under a directory that is spelled normally, in whatever way. */
  lemma IndexUnder(parts: seq<string>, rooted: bool, trailing: bool)
    requires Normal(parts, rooted)
    ensures JoinPath(Spell(parts, rooted, trailing), "index.js") == Spell(parts + ["index.js"], rooted, false)
  {
    hide Split, Reduce, Join;
    var base := Spell(parts, rooted, trailing);
    var path := base + "/" + "index.js";
    SplitWhole("index.js");
    SplitAppend(base, "index.js");
    ReduceAppend([], Split(base), ["index.js"], rooted);
    ReduceOne(parts, "index.js", rooted);
    if parts == [] {
      SpelledNothing(rooted, trailing);
    } else {
      SplitSpelled(parts, rooted, trailing);
      ReduceSpelled(parts, rooted, trailing);
    }
    assert Reduce([], Split(path), rooted) == parts + ["index.js"];
    assert Rooted(path) == rooted && path != "" && path[|path| - 1] == 's';
  }

  /** An import that does not start with a dot resolves to nothing. One that does resolves to the file it names, or
      that with one of three extensions, or the index of a directory of this name: the first of these there is. */
  lemma ResolveOrder(from: string, spec: string, inventory: set<string>)
    ensures ResolveImport(from, spec, inventory) ==
              if spec == "" || spec[0] != '.' then None
              else
                var base := Candidates(from, spec)[0];
                if base in inventory then Some(base)
                else if base + ".js" in inventory then Some(base + ".js")
                else if base + ".mjs" in inventory then Some(base + ".mjs")
                else if base + ".cjs" in inventory then Some(base + ".cjs")
                else if JoinPath(base, "index.js") in inventory then Some(JoinPath(base, "index.js"))
                else None
  {
    hide Normalize, JoinPath, Directory, FirstIn;
    if spec != "" && spec[0] == '.' {
      var c := Candidates(from, spec);
      assert c == [c[0]] + ([c[1]] + ([c[2]] + ([c[3]] + ([c[4]] + []))));
      FirstNext(c[0], [c[1], c[2], c[3], c[4]], inventory);
      FirstNext(c[1], [c[2], c[3], c[4]], inventory);
      FirstNext(c[2], [c[3], c[4]], inventory);
      FirstNext(c[3], [c[4]], inventory);
      FirstNext(c[4], [], inventory);
      assert FirstIn([], inventory) == None;
    }
  }

  lemma FirstNext(c: string, rest: seq<string>, inventory: set<string>)
    ensures FirstIn([c] + rest, inventory) == if c in inventory then Some(c) else FirstIn(rest, inventory)
  {
    assert ([c] + rest)[1..] == rest;
  }

  /** An ordinary component. */
  ghost predicate IsPlain(x: string) {
    x != "" && x != "." && x != ".." && '/' !in x
  }

  /** "./x" is looked up next to the importing file, and "../x" one directory higher. */
  lemma RelativeImports(parts: seq<string>, sub: string, name: string, x: string)
    requires parts != [] && Normal(parts, false) && IsPlain(sub) && IsPlain(name) && IsPlain(x)
    ensures Candidates(Join(parts) + "/" + sub + "/" + name, "./" + x)[0] == Join(parts) + "/" + sub + "/" + x
    ensures Candidates(Join(parts) + "/" + sub + "/" + name, "../" + x)[0] == Join(parts) + "/" + x
  {
    hide Split, Reduce, Join, Candidates;
    var directory := parts + [sub];
    JoinMore(parts, sub);
    JoinMore(directory, x);
    JoinMore(parts, x);
    JoinEnds(directory);
    DirectoryOf(Join(directory), name);
    WalkOne(directory, name, ".", x);
    WalkOne(directory, name, "..", x);
    assert "." + "/" + x == "./" + x && ".." + "/" + x == "../" + x;
    assert directory[..|directory| - 1] == parts;
  }

  lemma JoinMore(parts: seq<string>, x: string)
    requires parts != []
    ensures Join(parts + [x]) == Join(parts) + "/" + x
  {
    JoinAppend(parts, [x]);
  }

  lemma ReduceOne(parts: seq<string>, raw: string, rooted: bool)
    ensures Reduce(parts, [raw], rooted) == Climb(parts, raw, rooted)
  {
    assert [raw][1..] == [];
    assert Reduce(Climb(parts, raw, rooted), [], rooted) == Climb(parts, raw, rooted);
  }

  lemma ReduceStep(directory: seq<string>, step: string, x: string)
    requires directory != [] && directory[|directory| - 1] != ".." && IsPlain(x) && (step == "." || step == "..")
    ensures Reduce(directory, [step, x], false)
            == (if step == "." then directory else directory[..|directory| - 1]) + [x]
  {
    hide Reduce;
    assert [step, x] == [step] + [x];
    ReduceAppend(directory, [step], [x], false);
    ReduceOne(directory, step, false);
    ReduceOne(Climb(directory, step, false), x, false);
  }

  lemma WalkOne(directory: seq<string>, name: string, step: string, x: string)
    requires directory != [] && Normal(directory, false) && directory[|directory| - 1] != ".."
    requires Directory(Join(directory) + "/" + name) == Join(directory)
    requires IsPlain(x) && (step == "." || step == "..")
    ensures Candidates(Join(directory) + "/" + name, step + "/" + x)[0]
            == Join((if step == "." then directory else directory[..|directory| - 1]) + [x])
  {
    hide Split, Join, Candidates, Directory, Reduce, Normal;
    var spec := step + "/" + x;
    ImportWalks(Join(directory) + "/" + name, spec);
    Unrooted(directory);
    ReduceKeeps([], directory, false) by { assert [] + directory == directory; }
    SplitWhole(step);
    SplitWhole(x);
    SplitAppend(step, x);
    ReduceStep(directory, step, x);
    assert [] + directory == directory && [step] + [x] == [step, x];
    assert spec[|spec| - 1] == x[|x| - 1] && x[|x| - 1] in x;
  }

  lemma Unrooted(parts: seq<string>)
    requires parts != [] && Normal(parts, false)
    ensures !Rooted(Join(parts)) && Split(Join(parts)) == parts
  {
    JoinEnds(parts);
    SplitJoin(parts);
  }
}
