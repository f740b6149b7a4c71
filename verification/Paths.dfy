/** Path canonicalisation and the containment tests built on it (scheduler.py and store.py). */
module Paths {
  import opened Common

  /** Case folding of one character; ASCII letters only. */
  function FoldChar(c: char): (f: char)
    ensures f == '/' <==> c == '/'
    ensures f == '.' <==> c == '.'
    ensures f == ' ' <==> c == ' '
    ensures f == '\\' <==> c == '\\'
  {
    if 'A' <= c <= 'Z' then (c as int + 32) as char else c
  }

  function Fold(s: string): (f: string)
    ensures |f| == |s| && forall i :: 0 <= i < |s| ==> f[i] == FoldChar(s[i])
  {
    seq(|s|, i requires 0 <= i < |s| => FoldChar(s[i]))
  }

  lemma FoldIdempotent(s: string)
    ensures Fold(Fold(s)) == Fold(s)
  {
  }

  /** `str.replace("\\", "/")`. */
  function Slashes(s: string): (r: string)
    ensures |r| == |s| && forall i :: 0 <= i < |s| ==> r[i] == if s[i] == '\\' then '/' else s[i]
  {
    seq(|s|, i requires 0 <= i < |s| => if s[i] == '\\' then '/' else s[i])
  }

  /** What one more character in front does to the components after it. */
  function Cons(c: char, rest: seq<string>): seq<string>
    requires rest != []
  {
    if c == '/' then [""] + rest else [[c] + rest[0]] + rest[1..]
  }

  /** `str.split("/")`. */
  function Split(s: string): (parts: seq<string>)
    ensures |parts| >= 1
  {
    if s == "" then [""] else Cons(s[0], Split(s[1..]))
  }

  /** `"/".join(parts)`. */
  function Join(parts: seq<string>): string {
    if parts == [] then ""
    else if |parts| == 1 then parts[0]
    else parts[0] + "/" + Join(parts[1..])
  }

  /** `str.rstrip(" ")`, and `str.rstrip(". ")` when `dots` is set. */
  function RStrip(s: string, dots: bool): (r: string)
    ensures r <= s
    ensures r != "" ==> r[|r| - 1] != ' ' && (dots ==> r[|r| - 1] != '.')
    ensures s != "" && s[|s| - 1] != ' ' && (dots ==> s[|s| - 1] != '.') ==> r == s
  {
    if s != "" && (s[|s| - 1] == ' ' || (dots && s[|s| - 1] == '.')) then RStrip(s[..|s| - 1], dots) else s
  }

  /** What one raw component does to the stack of components collected so far. */
  function Push(parts: seq<string>, raw: string): seq<string> {
    var part := RStrip(raw, false);
    if part == "" || part == "." then parts
    else if part == ".." then
      if parts != [] && parts[|parts| - 1] != ".." then parts[..|parts| - 1] else parts + [".."]
    else
      var name := RStrip(part, true);
      if name == "" then parts else parts + [Fold(name)]
  }

  function PushAll(parts: seq<string>, raws: seq<string>): seq<string>
    decreases raws
  {
    if raws == [] then parts else PushAll(Push(parts, raws[0]), raws[1..])
  }

  function Components(s: string): seq<string> {
    PushAll([], Split(Slashes(s)))
  }

  function Canonical(s: string): string {
    Join(Components(s))
  }

  /** A component name: not empty, no separators, folded, and not ending in a dot or a space. */
  ghost predicate IsName(n: string) {
    && n != ""
    && '/' !in n && '\\' !in n
    && n[|n| - 1] != '.' && n[|n| - 1] != ' '
    && Fold(n) == n
  }

  /** Leading ".." components followed by names. */
  ghost predicate IsCanonical(parts: seq<string>) {
    && (forall i :: 0 <= i < |parts| ==> parts[i] == ".." || IsName(parts[i]))
    && (forall i :: 0 < i < |parts| && parts[i] == ".." ==> parts[i - 1] == "..")
  }

  ghost predicate SlashFree(raws: seq<string>) {
    forall i :: 0 <= i < |raws| ==> '/' !in raws[i]
  }

  // ---- Splitting and joining ----

  lemma ConsAppend(c: char, x: seq<string>, y: seq<string>)
    requires x != []
    ensures Cons(c, x + y) == Cons(c, x) + y
  {
    assert (x + y)[0] == x[0] && (x + y)[1..] == x[1..] + y;
  }

  lemma {:induction false} SplitAt(s: string, a: string, b: string)
    requires s == a + "/" + b
    ensures Split(s) == Split(a) + Split(b)
    decreases a
  {
    if a == "" {
      assert s[0] == '/' && s[1..] == b;
    } else {
      assert s[1..] == a[1..] + "/" + b && s[0] == a[0];
      SplitAt(s[1..], a[1..], b);
      ConsAppend(a[0], Split(a[1..]), Split(b));
    }
  }

  lemma SplitAppend(a: string, b: string)
    ensures Split(a + "/" + b) == Split(a) + Split(b)
  {
    SplitAt(a + "/" + b, a, b);
  }

  lemma {:induction false} SplitWhole(a: string)
    requires '/' !in a
    ensures Split(a) == [a]
  {
    if a != "" {
      assert forall i :: 0 <= i < |a[1..]| ==> a[1..][i] == a[i + 1];
      SplitWhole(a[1..]);
      assert a == [a[0]] + a[1..];
    }
  }

  lemma {:induction false} SplitSlashFree(s: string)
    ensures SlashFree(Split(s))
    ensures '\\' !in s ==> forall p :: p in Split(s) ==> '\\' !in p
  {
    if s != "" {
      SplitSlashFree(s[1..]);
      var rest := Split(s[1..]);
      assert '/' !in rest[0];
      if '\\' !in s {
        assert s[0] in s;
        assert forall c :: c in s[1..] ==> c in s;
        assert rest[0] in rest;
      }
    }
  }

  lemma {:induction false} SplitJoin(parts: seq<string>)
    requires parts != [] && SlashFree(parts)
    ensures Split(Join(parts)) == parts
  {
    SplitWhole(parts[0]);
    if |parts| > 1 {
      SplitJoin(parts[1..]);
      SplitAppend(parts[0], Join(parts[1..]));
      assert parts == [parts[0]] + parts[1..];
    }
  }

  lemma {:induction false} JoinAppend(a: seq<string>, b: seq<string>)
    requires a != [] && b != []
    ensures Join(a + b) == Join(a) + "/" + Join(b)
  {
    if |a| == 1 {
      assert (a + b)[1..] == b;
    } else {
      assert (a + b)[1..] == a[1..] + b;
      JoinAppend(a[1..], b);
      assert a[0] + "/" + (Join(a[1..]) + "/" + Join(b)) == (a[0] + "/" + Join(a[1..])) + "/" + Join(b);
    }
  }

  lemma {:induction false} JoinNoBackslash(parts: seq<string>)
    requires forall p :: p in parts ==> '\\' !in p
    ensures '\\' !in Join(parts)
  {
    if |parts| > 1 {
      JoinNoBackslash(parts[1..]);
    }
  }

  // ---- The stack machine ----

  /** Stripping the trailing dots and spaces of a component and folding it leaves a name. */
  lemma FoldedName(raw: string, name: string)
    requires name <= raw && name != "" && '/' !in raw && '\\' !in raw
    requires name[|name| - 1] != '.' && name[|name| - 1] != ' '
    ensures IsName(Fold(name)) && Fold(name) != ".."
  {
    FoldIdempotent(name);
    var f := Fold(name);
    assert f[|f| - 1] == FoldChar(name[|name| - 1]);
    forall i | 0 <= i < |f| ensures f[i] != '/' && f[i] != '\\' {
      assert raw[i] in raw;
      assert f[i] == FoldChar(raw[i]);
    }
  }

  lemma LastCanonical(parts: seq<string>, name: string)
    requires IsCanonical(parts)
    ensures parts != [] ==> IsCanonical(parts[..|parts| - 1])
    ensures IsName(name) && name != ".." ==> IsCanonical(parts + [name])
    ensures parts == [] || parts[|parts| - 1] == ".." ==> IsCanonical(parts + [".."])
  {
    hide IsName;
  }

  lemma PushCanonical(parts: seq<string>, raw: string)
    requires IsCanonical(parts) && '/' !in raw && '\\' !in raw
    ensures IsCanonical(Push(parts, raw))
  {
    hide IsCanonical, IsName, Fold;
    var part := RStrip(raw, false);
    var name := RStrip(part, true);
    LastCanonical(parts, Fold(name));
    if part != "" && part != "." && part != ".." && name != "" {
      FoldedName(raw, name);
    }
  }

  lemma {:induction false} PushAllCanonical(parts: seq<string>, raws: seq<string>)
    requires IsCanonical(parts) && SlashFree(raws)
    requires forall p :: p in raws ==> '\\' !in p
    ensures IsCanonical(PushAll(parts, raws))
    decreases raws
  {
    if raws != [] {
      assert raws[0] in raws;
      PushCanonical(parts, raws[0]);
      PushAllCanonical(Push(parts, raws[0]), raws[1..]);
    }
  }

  lemma {:induction false} PushAllAppend(parts: seq<string>, a: seq<string>, b: seq<string>)
    ensures PushAll(parts, a + b) == PushAll(PushAll(parts, a), b)
    decreases a
  {
    if a == [] {
      assert a + b == b;
    } else {
      assert (a + b)[1..] == a[1..] + b;
      PushAllAppend(Push(parts, a[0]), a[1..], b);
    }
  }

  /** Canonical components pushed on a stack they extend canonically are pushed unchanged. */
  lemma {:induction false} PushAllKeeps(parts: seq<string>, more: seq<string>)
    requires IsCanonical(parts + more)
    ensures PushAll(parts, more) == parts + more
    decreases more
  {
    if more == [] {
      assert parts + more == parts;
    } else {
      var all := parts + more;
      var x := more[0];
      assert all[|parts|] == x;
      if x == ".." {
        assert parts != [] ==> all[|parts| - 1] == parts[|parts| - 1];
      }
      assert Push(parts, x) == parts + [x];
      assert (parts + [x]) + more[1..] == all;
      PushAllKeeps(parts + [x], more[1..]);
    }
  }

  /** The shape of every canonical path. */
  lemma ComponentsCanonical(s: string)
    ensures IsCanonical(Components(s))
  {
    SplitSlashFree(Slashes(s));
    PushAllCanonical([], Split(Slashes(s)));
  }

  lemma CanonicalSlashFree(parts: seq<string>)
    requires IsCanonical(parts)
    ensures SlashFree(parts) && (forall p :: p in parts ==> '\\' !in p)
    ensures Join(parts) == "" <==> parts == []
  {
  }

  /** Splitting a canonical path gives its components back. */
  lemma ComponentsOfCanonical(parts: seq<string>)
    requires IsCanonical(parts)
    ensures Components(Join(parts)) == parts
  {
    CanonicalSlashFree(parts);
    JoinNoBackslash(parts);
    var s := Join(parts);
    assert Slashes(s) == s;
    if parts == [] {
      assert PushAll([], [""]) == PushAll([], []);
    } else {
      SplitJoin(parts);
      assert [] + parts == parts;
      PushAllKeeps([], parts);
    }
  }

  /** The canonical form is a fixed point. */
  lemma CanonicalIdempotent(s: string)
    ensures Canonical(Canonical(s)) == Canonical(s)
  {
    ComponentsCanonical(s);
    ComponentsOfCanonical(Components(s));
  }

  /** Two paths have the same canonical string only when they have the same components. */
  lemma CanonicalInjective(a: string, b: string)
    ensures Canonical(a) == Canonical(b) <==> Components(a) == Components(b)
  {
    ComponentsCanonical(a);
    ComponentsCanonical(b);
    ComponentsOfCanonical(Components(a));
    ComponentsOfCanonical(Components(b));
  }

  lemma ComponentsChild(p: string, q: string)
    ensures Components(p + "/" + q) == PushAll(Components(p), Split(Slashes(q)))
  {
    assert Slashes(p + "/" + q) == Slashes(p) + "/" + Slashes(q);
    SplitAppend(Slashes(p), Slashes(q));
    PushAllAppend([], Split(Slashes(p)), Split(Slashes(q)));
  }

  /** A parent may be replaced by its canonical form before a child is appended, whatever the child does. */
  lemma CanonicalChild(p: string, q: string)
    ensures Canonical(p + "/" + q) == Canonical(Canonical(p) + "/" + q)
  {
    ComponentsChild(p, q);
    ComponentsChild(Canonical(p), q);
    ComponentsCanonical(p);
    ComponentsOfCanonical(Components(p));
  }

  // ---- What spelling does not matter ----

  /** Two texts that differ at most in the case of ASCII letters. */
  ghost predicate SameLetters(a: string, b: string) {
    |a| == |b| && forall i :: 0 <= i < |a| ==>
      || a[i] == b[i]
      || ('A' <= a[i] <= 'Z' && b[i] as int == a[i] as int + 32)
      || ('a' <= a[i] <= 'z' && b[i] as int == a[i] as int - 32)
  }

  lemma SameLettersFold(a: string, b: string)
    ensures SameLetters(a, b) <==> Fold(a) == Fold(b)
  {
    if SameLetters(a, b) {
      forall i | 0 <= i < |a| ensures Fold(a)[i] == Fold(b)[i] {
      }
    }
    if Fold(a) == Fold(b) {
      forall i | 0 <= i < |a|
        ensures || a[i] == b[i]
                || ('A' <= a[i] <= 'Z' && b[i] as int == a[i] as int + 32)
                || ('a' <= a[i] <= 'z' && b[i] as int == a[i] as int - 32)
      {
        assert Fold(a)[i] == Fold(b)[i];
      }
    }
  }

  lemma RStripFold(s: string, dots: bool)
    ensures RStrip(Fold(s), dots) == Fold(RStrip(s, dots))
  {
    if s != "" {
      assert Fold(s)[..|s| - 1] == Fold(s[..|s| - 1]);
      if s[|s| - 1] == ' ' || (dots && s[|s| - 1] == '.') {
        RStripFold(s[..|s| - 1], dots);
      }
    }
  }

  lemma PushFolded(parts: seq<string>, raw: string)
    ensures Push(parts, Fold(raw)) == Push(parts, raw)
  {
    var part := RStrip(raw, false);
    RStripFold(raw, false);
    RStripFold(part, true);
    FoldIdempotent(RStrip(part, true));
    assert Fold(part) == "." <==> part == "." by {
      if Fold(part) == "." { assert Fold(part)[0] == '.'; }
    }
    assert Fold(part) == ".." <==> part == ".." by {
      if Fold(part) == ".." { assert Fold(part)[0] == '.' && Fold(part)[1] == '.'; }
    }
  }

  /** The two lists fold to the same components. */
  ghost predicate FoldAlike(a: seq<string>, b: seq<string>) {
    |a| == |b| && forall i :: 0 <= i < |a| ==> Fold(a[i]) == Fold(b[i])
  }

  lemma {:induction false} PushAllAlike(parts: seq<string>, a: seq<string>, b: seq<string>)
    requires FoldAlike(a, b)
    ensures PushAll(parts, a) == PushAll(parts, b)
    decreases a
  {
    if a != [] {
      PushFolded(parts, a[0]);
      PushFolded(parts, b[0]);
      assert Fold(a[0]) == Fold(b[0]);
      PushAllAlike(Push(parts, a[0]), a[1..], b[1..]);
    }
  }

  lemma FoldCons(c: char, s: string)
    ensures Fold([c] + s) == [FoldChar(c)] + Fold(s)
  {
  }

  lemma ConsAlike(c: char, d: char, x: seq<string>, y: seq<string>)
    requires FoldChar(c) == FoldChar(d) && x != [] && FoldAlike(x, y)
    ensures FoldAlike(Cons(c, x), Cons(d, y))
  {
    hide Fold;
    FoldCons(c, x[0]);
    FoldCons(d, y[0]);
  }

  lemma {:induction false} SplitAlike(a: string, b: string)
    requires Fold(a) == Fold(b)
    ensures FoldAlike(Split(a), Split(b))
  {
    hide Fold, FoldAlike, FoldChar, Cons;
    assert |a| == |b|;
    if a != "" {
      assert Fold(a)[0] == FoldChar(a[0]) && Fold(b)[0] == FoldChar(b[0]);
      FoldCons(a[0], a[1..]);
      FoldCons(b[0], b[1..]);
      assert [a[0]] + a[1..] == a && [b[0]] + b[1..] == b;
      assert Fold(a)[1..] == Fold(a[1..]) && Fold(b)[1..] == Fold(b[1..]);
      SplitAlike(a[1..], b[1..]);
      ConsAlike(a[0], b[0], Split(a[1..]), Split(b[1..]));
    } else {
      AlikeSelf(Split(a));
      assert b == "";
    }
  }

  lemma AlikeSelf(a: seq<string>)
    ensures FoldAlike(a, a)
  {
  }

  /** Neither the case of ASCII letters nor the kind of slash makes a difference. */
  lemma SpellingIrrelevant(a: string, b: string)
    requires SameLetters(Slashes(a), Slashes(b))
    ensures Components(a) == Components(b) && Canonical(a) == Canonical(b)
  {
    SameLettersFold(Slashes(a), Slashes(b));
    SplitAlike(Slashes(a), Slashes(b));
    PushAllAlike([], Split(Slashes(a)), Split(Slashes(b)));
  }

  // ---- What each component means ----

  /** A plain component: no separators, and no dot or space at its end. */
  ghost predicate Plain(name: string) {
    name != "" && '/' !in name && '\\' !in name && name[|name| - 1] != '.' && name[|name| - 1] != ' '
  }

  /** Dots and spaces. */
  ghost predicate Padding(s: string) {
    forall i :: 0 <= i < |s| ==> s[i] == '.' || s[i] == ' '
  }

  lemma OneComponent(name: string)
    requires '/' !in name && '\\' !in name
    ensures Split(Slashes(name)) == [name]
  {
    assert Slashes(name) == name by {
      assert forall i :: 0 <= i < |name| ==> name[i] in name;
    }
    SplitWhole(name);
  }

  lemma ChildIs(p: string, name: string)
    requires '/' !in name && '\\' !in name
    ensures Components(p + "/" + name) == Push(Components(p), name)
  {
    ComponentsChild(p, name);
    OneComponent(name);
    assert PushAll(Push(Components(p), name), []) == Push(Components(p), name);
  }

  lemma PushPlain(parts: seq<string>, name: string)
    requires Plain(name)
    ensures Push(parts, name) == parts + [Fold(name)] && Fold(name) != ".."
  {
    assert Fold(name)[|name| - 1] == FoldChar(name[|name| - 1]);
  }

  lemma PushUp(parts: seq<string>, name: string)
    requires name != ".."
    ensures Push(parts + [name], "..") == parts
  {
    assert (parts + [name])[..|parts|] == parts;
  }

  /** A plain name leads one level down, and its case does not matter. */
  lemma ChildDescends(p: string, name: string)
    requires Plain(name)
    ensures |Components(p + "/" + name)| == |Components(p)| + 1
    ensures Components(p + "/" + name)[..|Components(p)|] == Components(p)
    ensures SameLetters(Components(p + "/" + name)[|Components(p)|], name)
  {
    hide Push, Components;
    ChildIs(p, name);
    PushPlain(Components(p), name);
    FoldIdempotent(name);
    SameLettersFold(Fold(name), name);
  }

  /** ".." takes the last name back. */
  lemma ParentReturns(p: string, name: string)
    requires Plain(name)
    ensures Canonical(p + "/" + name + "/..") == Canonical(p)
  {
    hide Fold, Join, Push, Components, Plain;
    PlainFree(name);
    ChildIs(p, name);
    ChildIs(p + "/" + name, "..");
    assert p + "/" + name + "/" + ".." == p + "/" + name + "/..";
    PushPlain(Components(p), name);
    PushUp(Components(p), Fold(name));
  }

  lemma PlainFree(name: string)
    requires Plain(name)
    ensures '/' !in name && '\\' !in name
  {
  }

  /** "." and nothing lead nowhere. */
  lemma DotStays(p: string)
    ensures Canonical(p + "/.") == Canonical(p) && Canonical(p + "/") == Canonical(p)
  {
    hide Fold, Join;
    ChildIs(p, ".");
    ChildIs(p, "");
    assert p + "/" + "." == p + "/." && p + "/" + "" == p + "/";
  }

  /** Climbing out of a path without names is kept as it is. */
  lemma ClimbsOut(p: string)
    requires Components(p) == [] || Components(p)[|Components(p)| - 1] == ".."
    ensures Components(p + "/..") == Components(p) + [".."]
  {
    ChildIs(p, "..");
    assert p + "/" + ".." == p + "/..";
  }

  lemma {:induction false} StripPadding(name: string, pad: string)
    requires Plain(name) && Padding(pad)
    ensures RStrip(name + pad, true) == name
    ensures exists k :: 0 <= k <= |pad| && RStrip(name + pad, false) == name + pad[..k]
  {
    var s := name + pad;
    if pad == "" {
      assert s == name && pad[..0] == "";
    } else {
      var shorter := pad[..|pad| - 1];
      assert s[..|s| - 1] == name + shorter;
      StripPadding(name, shorter);
      if pad[|pad| - 1] == ' ' {
        var k :| 0 <= k <= |shorter| && RStrip(name + shorter, false) == name + shorter[..k];
        assert shorter[..k] == pad[..k];
      } else {
        assert pad[..|pad|] == pad;
      }
    }
  }

  /** Dots and spaces at the end of a name make no difference. */
  lemma PaddingIgnored(p: string, name: string, pad: string)
    requires Plain(name) && Padding(pad)
    ensures Canonical(p + "/" + (name + pad)) == Canonical(p + "/" + name)
  {
    assert '/' !in pad && '\\' !in pad;
    ChildIs(p, name);
    ChildIs(p, name + pad);
    StripPadding(name, pad);
    var k :| 0 <= k <= |pad| && RStrip(name + pad, false) == name + pad[..k];
    StripPadding(name, pad[..k]);
    NotDots(name, pad[..k]);
    NotDots(name, "");
    assert name + "" == name;
  }

  lemma NotDots(name: string, pad: string)
    requires Plain(name)
    ensures name + pad !in {"", ".", ".."}
  {
    assert (name + pad)[|name| - 1] == name[|name| - 1];
  }

  // ---- Containment ----

  /** `_contains`. */
  predicate Contains(root: string, path: string) {
    root == "" || path == root || root + "/" <= path
  }

  lemma ContainsGivesPrefix(a: seq<string>, b: seq<string>)
    requires IsCanonical(a) && IsCanonical(b) && Contains(Join(a), Join(b))
    ensures a <= b
  {
    CanonicalSlashFree(a);
    CanonicalSlashFree(b);
    if Join(b) == Join(a) {
      ComponentsOfCanonical(a);
      ComponentsOfCanonical(b);
    } else if a != [] {
      var rest := Join(b)[|Join(a)| + 1..];
      assert Join(b) == Join(a) + "/" + rest;
      SplitAt(Join(b), Join(a), rest);
      SplitJoin(a);
      SplitJoin(b);
    }
  }

  lemma PrefixGivesContains(a: seq<string>, b: seq<string>)
    requires a <= b
    ensures Contains(Join(a), Join(b))
  {
    if a != [] && a != b {
      var c := b[|a|..];
      assert b == a + c;
      JoinAppend(a, c);
    }
  }

  lemma ContainsIsPrefix(a: seq<string>, b: seq<string>)
    requires IsCanonical(a) && IsCanonical(b)
    ensures Contains(Join(a), Join(b)) <==> a <= b
  {
    if Contains(Join(a), Join(b)) {
      ContainsGivesPrefix(a, b);
    }
    if a <= b {
      PrefixGivesContains(a, b);
    }
  }

  /** The string test for "at or under" is the tree relation on components: `src/a` does not contain `src/ab`. */
  lemma ContainsIsTree(root: string, path: string)
    ensures Contains(Canonical(root), Canonical(path)) <==> Components(root) <= Components(path)
  {
    ComponentsCanonical(root);
    ComponentsCanonical(path);
    ContainsIsPrefix(Components(root), Components(path));
  }

  /** `_canonical_path`, as the loop that pushes and pops the list of parts. */
  method CanonicalPath(value: string) returns (r: string)
    ensures r == Canonical(value)
  {
    var raws := Split(Slashes(value));
    var parts: seq<string> := [];
    for i := 0 to |raws|
      invariant PushAll(parts, raws[i..]) == Components(value)
    {
      assert raws[i..][1..] == raws[i + 1..];
      var part := RStrip(raws[i], false);
      if part == "" || part == "." {
        continue;
      }
      if part == ".." {
        if parts != [] && parts[|parts| - 1] != ".." {
          parts := parts[..|parts| - 1];
        } else {
          parts := parts + [part];
        }
        continue;
      }
      part := RStrip(part, true);
      if part == "" {
        continue;
      }
      parts := parts + [Fold(part)];
    }
    r := Join(parts);
  }
}
