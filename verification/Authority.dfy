/** What a task may touch: repository and base identities, writable scope, budget (store.py). */
module Authority {
  import opened Common
  import opened Paths

  // ---- Identities ----

  /** `_physical_worktree_identity`; none when the canonical path is empty. */
  function WorktreeIdentity(path: string): Option<string> {
    var value := Canonical(path);
    if value == "" then None else Some(value)
  }

  predicate IsAlnum(c: char) {
    'a' <= c <= 'z' || 'A' <= c <= 'Z' || '0' <= c <= '9'
  }

  /** Alphanumerics and inner hyphens, at most 39 characters. */
  predicate IsOwner(s: string) {
    && 1 <= |s| <= 39
    && IsAlnum(s[0]) && IsAlnum(s[|s| - 1])
    && forall i :: 0 <= i < |s| ==> IsAlnum(s[i]) || s[i] == '-'
  }

  predicate IsRepo(s: string) {
    && s != "" && s != "." && s != ".."
    && forall i :: 0 <= i < |s| ==> IsAlnum(s[i]) || s[i] in "._-"
  }

  /** `_repository_identity`: an owner and a name around one separator, case-folded. Blank, control, colon and
      URL spellings all fail the character classes. */
  function RepositoryIdentity(repository: string): Option<string> {
    var parts := Split(Slashes(repository));
    if |parts| == 2 && IsOwner(parts[0]) && IsRepo(parts[1]) then Some(Fold(parts[0]) + "/" + Fold(parts[1]))
    else None
  }

  predicate IsHex(c: char) {
    '0' <= c <= '9' || 'a' <= c <= 'f' || 'A' <= c <= 'F'
  }

  /** `_git_object_id`: exactly 40 or 64 hex digits, in lower case. */
  function GitObjectId(value: string): Option<string> {
    if (|value| == 40 || |value| == 64) && forall i :: 0 <= i < |value| ==> IsHex(value[i])
    then Some(Fold(value)) else None
  }

  // ---- Writable scope ----

  /** The characters `str.strip()` removes. */
  predicate IsSpace(c: char) {
    || '\t' <= c <= '\r' || c == ' '
    || '\U{1C}' <= c <= '\U{1F}' || c == '\U{85}' || c == '\U{A0}' || c == '\U{1680}'
    || '\U{2000}' <= c <= '\U{200A}' || c == '\U{2028}' || c == '\U{2029}' || c == '\U{202F}'
    || c == '\U{205F}' || c == '\U{3000}'
  }

  predicate IsBlank(s: string) {
    forall i :: 0 <= i < |s| ==> IsSpace(s[i])
  }

  /** A path that may stand in a task's scope: not blank and not the whole tree. */
  predicate IsAuthority(path: string) {
    !IsBlank(path) && Canonical(path) != ""
  }

  predicate ValidScope(paths: seq<string>) {
    forall i :: 0 <= i < |paths| ==> IsAuthority(paths[i])
  }

  /** The canonical authorities in order of first appearance. */
  function Authorities(paths: seq<string>): seq<string> {
    if paths == [] then []
    else
      var before := Authorities(paths[..|paths| - 1]);
      var c := Canonical(paths[|paths| - 1]);
      if c in before then before else before + [c]
  }

  /** `_scope_authorities`. */
  method ScopeAuthorities(paths: seq<string>) returns (out: Option<seq<string>>)
    ensures out == if ValidScope(paths) then Some(Authorities(paths)) else None
  {
    hide IsBlank, Canonical;
    var list: seq<string> := [];
    for i := 0 to |paths|
      invariant ValidScope(paths[..i])
      invariant list == Authorities(paths[..i])
    {
      if IsBlank(paths[i]) {
        return None;
      }
      var canonical := CanonicalPath(paths[i]);
      if canonical == "" {
        return None;
      }
      assert paths[..i + 1] == paths[..i] + [paths[i]];
      if canonical !in list {
        list := list + [canonical];
      }
    }
    assert paths[..|paths|] == paths;
    out := Some(list);
  }

  /** Some path has this canonical form. */
  ghost predicate Spells(paths: seq<string>, c: string) {
    exists i :: 0 <= i < |paths| && Canonical(paths[i]) == c
  }

  /** The authorities are the canonical forms of the paths. */
  lemma {:induction false} AuthoritiesExact(paths: seq<string>, c: string)
    ensures c in Authorities(paths) <==> Spells(paths, c)
  {
    hide Canonical;
    if paths != [] {
      var init, last := paths[..|paths| - 1], paths[|paths| - 1];
      AuthoritiesExact(init, c);
      assert paths == init + [last];
      if Spells(paths, c) {
        var i :| 0 <= i < |paths| && Canonical(paths[i]) == c;
        assert i < |init| ==> Canonical(init[i]) == c;
      }
      if Spells(init, c) {
        var i :| 0 <= i < |init| && Canonical(init[i]) == c;
        assert Canonical(paths[i]) == c;
      }
      assert Canonical(paths[|init|]) == Canonical(last);
    }
  }

  /** One authority is the other, or lies under it. */
  predicate Entangled(x: string, y: string) {
    x == y || y + "/" <= x || x + "/" <= y
  }

  /** `_scope_overlap`. */
  predicate ScopeOverlap(a: seq<string>, b: seq<string>) {
    exists x, y | x in a && y in b :: Entangled(x, y)
  }

  /** A path, as components, lies at or under one of the given scope paths. */
  ghost predicate Under(paths: seq<string>, p: seq<string>) {
    exists i :: 0 <= i < |paths| && Components(paths[i]) <= p
  }

  ghost predicate CommonPath(a: seq<string>, b: seq<string>) {
    exists p :: Under(a, p) && Under(b, p)
  }

  /** The string comparison of two authorities is comparability in the tree. */
  lemma EntangledIffComparable(m: string, n: string)
    requires IsAuthority(m) && IsAuthority(n)
    ensures Entangled(Canonical(m), Canonical(n))
            <==> Components(m) <= Components(n) || Components(n) <= Components(m)
  {
    ContainsIsTree(m, n);
    ContainsIsTree(n, m);
  }

  lemma OverlapGivesPath(a: seq<string>, b: seq<string>)
    requires ValidScope(a) && ValidScope(b)
    requires ScopeOverlap(Authorities(a), Authorities(b))
    ensures CommonPath(a, b)
  {
    var x, y :| x in Authorities(a) && y in Authorities(b) && Entangled(x, y);
    AuthoritiesExact(a, x);
    AuthoritiesExact(b, y);
    var m :| 0 <= m < |a| && Canonical(a[m]) == x;
    var n :| 0 <= n < |b| && Canonical(b[n]) == y;
    EntangledIffComparable(a[m], b[n]);
    var p := if Components(a[m]) <= Components(b[n]) then Components(b[n]) else Components(a[m]);
    assert Under(a, p) && Under(b, p);
  }

  lemma PathGivesOverlap(a: seq<string>, b: seq<string>, p: seq<string>)
    requires ValidScope(a) && ValidScope(b)
    requires Under(a, p) && Under(b, p)
    ensures ScopeOverlap(Authorities(a), Authorities(b))
  {
    hide Canonical, Components, Entangled;
    var m :| 0 <= m < |a| && Components(a[m]) <= p;
    var n :| 0 <= n < |b| && Components(b[n]) <= p;
    var u, v := Components(a[m]), Components(b[n]);
    assert u == p[..|u|] && v == p[..|v|];
    assert IsAuthority(a[m]) && IsAuthority(b[n]);
    EntangledIffComparable(a[m], b[n]);
    AuthoritiesExact(a, Canonical(a[m]));
    AuthoritiesExact(b, Canonical(b[n]));
  }

  /** Two valid scopes overlap exactly when some path lies under an authority of each. */
  lemma OverlapIffCommonPath(a: seq<string>, b: seq<string>)
    requires ValidScope(a) && ValidScope(b)
    ensures ScopeOverlap(Authorities(a), Authorities(b)) <==> CommonPath(a, b)
  {
    if ScopeOverlap(Authorities(a), Authorities(b)) {
      OverlapGivesPath(a, b);
    }
    if CommonPath(a, b) {
      var p :| Under(a, p) && Under(b, p);
      PathGivesOverlap(a, b, p);
    }
  }

  // ---- Budget ----

  /** `_validated_budget_request` accepts: sound books, a finite non-negative request, and room for it. */
  predicate BudgetAllows(allotted: Amount, spent: real, requested: Amount) {
    && IsMoney(allotted) && 0.0 <= spent <= allotted.value
    && IsMoney(requested) && spent + requested.value <= allotted.value
  }
}
