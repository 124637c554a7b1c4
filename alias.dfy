/** Build-time resolution of import paths: a path relative to the importing file ("./" or
    "../") is joined to that file's directory; any other path has its first alias occurrence
    replaced ("$lib" becomes "src/lib"). */
module Alias {

  /** `pat` occurs in `s` starting at index i. */
  predicate OccursAt(s: string, pat: string, i: int) {
    0 <= i && i + |pat| <= |s| && s[i..i + |pat|] == pat
  }

  /** The first index at or after `from` where `pat` occurs, or -1. */
  function IndexFrom(s: string, pat: string, from: nat): (r: int)
    requires from <= |s|
    decreases |s| - from
    ensures r == -1 || (from <= r && OccursAt(s, pat, r))
    ensures r == -1 <==> forall i :: from <= i ==> !OccursAt(s, pat, i)
    ensures r != -1 ==> forall i :: from <= i < r ==> !OccursAt(s, pat, i)
  {
    if OccursAt(s, pat, from) then from
    else if from == |s| then -1
    else IndexFrom(s, pat, from + 1)
  }

  /** `s.indexOf(pat)`: the first index where `pat` occurs, or -1. */
  function IndexOf(s: string, pat: string): int {
    IndexFrom(s, pat, 0)
  }

  /** `s.includes(pat)` */
  predicate Includes(s: string, pat: string) {
    IndexOf(s, pat) != -1
  }

  /** `s.replace(pat, rep)` with a string pattern: only the first occurrence is replaced, and
      `rep` is inserted literally (it holds no `$` pattern here). */
  function ReplaceFirst(s: string, pat: string, rep: string): (r: string)
    ensures !Includes(s, pat) ==> r == s
    ensures Includes(s, pat) ==>
      exists i :: (OccursAt(s, pat, i)
        && (forall j :: 0 <= j < i ==> !OccursAt(s, pat, j))
        && r == s[..i] + rep + s[i + |pat|..])
  {
    var i := IndexOf(s, pat);
    if i == -1 then s else s[..i] + rep + s[i + |pat|..]
  }

  /** `s.startsWith(prefix)` */
  predicate StartsWith(s: string, prefix: string) {
    |prefix| <= |s| && s[..|prefix|] == prefix
  }

  /** The alias table: "$lib" stands for "src/lib". */
  const AliasMap: seq<(string, string)> := [("$lib", "src/lib")]

  /** The loop over the alias table: the first entry whose alias the path contains has its
      first occurrence replaced; a path containing no alias is returned as it is. */
  function ResolveAliasWith(entries: seq<(string, string)>, pth: string): (r: string)
    ensures (forall k :: 0 <= k < |entries| ==> !Includes(pth, entries[k].0)) ==> r == pth
    ensures (exists k :: 0 <= k < |entries| && Includes(pth, entries[k].0)) ==>
      exists k :: (0 <= k < |entries| && Includes(pth, entries[k].0)
        && (forall j :: 0 <= j < k ==> !Includes(pth, entries[j].0))
        && r == ReplaceFirst(pth, entries[k].0, entries[k].1))
  {
    if entries == [] then pth
    else
      var (alias, path) := entries[0];
      if !Includes(pth, alias) then
        var r := ResolveAliasWith(entries[1..], pth);
        assert forall k :: 1 <= k < |entries| ==> entries[k] == entries[1..][k - 1];
        r
      else ReplaceFirst(pth, alias, path)
  }

  /** `resolveAlias` over the project's alias table. */
  function ResolveAlias(pth: string): (r: string)
    ensures !Includes(pth, "$lib") ==> r == pth
    ensures Includes(pth, "$lib") ==> r == ReplaceFirst(pth, "$lib", "src/lib")
  {
    ResolveAliasWith(AliasMap, pth)
  }

  /** A path relative to the importing file is joined to its directory (`path.dirname` and
      `path.join` are the host's and are passed in); any other path goes through the aliases. */
  function ResolvePath(dirname: string -> string, join: (string, string) -> string,
                       filename: string, pth: string): (r: string)
    ensures StartsWith(pth, "./") || StartsWith(pth, "../") ==> r == join(dirname(filename), pth)
    ensures !(StartsWith(pth, "./") || StartsWith(pth, "../")) ==> r == ResolveAlias(pth)
  {
    if StartsWith(pth, "./") || StartsWith(pth, "../") then join(dirname(filename), pth)
    else ResolveAlias(pth)
  }

  /** A path without "$lib" is returned unchanged; a path with it has exactly its first
      occurrence replaced by "src/lib", the text before and after being kept verbatim. */
  lemma {:induction false} ResolveAliasReplacesFirst(pth: string)
    ensures !Includes(pth, "$lib") ==> ResolveAlias(pth) == pth
    ensures Includes(pth, "$lib") ==>
      exists i :: (OccursAt(pth, "$lib", i)
        && (forall j :: 0 <= j < i ==> !OccursAt(pth, "$lib", j))
        && ResolveAlias(pth) == pth[..i] + "src/lib" + pth[i + 4..])
  {
    var r := ResolveAlias(pth);
    if !Includes(pth, "$lib") {
      assert forall k :: 0 <= k < |AliasMap| ==> !Includes(pth, AliasMap[k].0);
    } else {
      var i := IndexOf(pth, "$lib");
      assert OccursAt(pth, "$lib", i);
      assert r == pth[..i] + "src/lib" + pth[i + 4..];
    }
  }

  /** A path that starts with "$lib" resolves to the same path under "src/lib". */
  lemma {:induction false} AliasedPrefix(rest: string)
    ensures ResolveAlias("$lib" + rest) == "src/lib" + rest
  {
    var pth := "$lib" + rest;
    assert OccursAt(pth, "$lib", 0);
    assert IndexOf(pth, "$lib") == 0;
    assert pth[4..] == rest;
  }

  /** Only paths starting with "./" or "../" take the relative branch; every other path is
      resolved through the aliases. */
  lemma {:induction false} ResolvePathBranch(dirname: string -> string, join: (string, string) -> string,
                                             filename: string, rest: string)
    ensures ResolvePath(dirname, join, filename, "./" + rest) == join(dirname(filename), "./" + rest)
    ensures ResolvePath(dirname, join, filename, "../" + rest) == join(dirname(filename), "../" + rest)
    ensures ResolvePath(dirname, join, filename, "$lib" + rest) == "src/lib" + rest
  {
    assert StartsWith("./" + rest, "./");
    assert StartsWith("../" + rest, "../");
    var pth := "$lib" + rest;
    assert !StartsWith(pth, "./") by { assert pth[0] == '$'; }
    assert !StartsWith(pth, "../") by { assert pth[0] == '$'; }
    AliasedPrefix(rest);
  }
}
