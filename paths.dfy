/**
 * The two path helpers golden.go takes from Go's path/filepath: Join and Dir,
 * for '/'-separated paths. Lexical cleaning (collapsing "//", "." and "..")
 * is not part of this model.
 */
module Paths {
  import opened Wrappers

  /** The index of the last '/' in `s`, if there is one. */
  function LastSlash(s: string): (r: Option<nat>)
    ensures r.Some? ==> r.value < |s| && s[r.value] == '/'
    ensures r.Some? ==> forall j :: r.value < j < |s| ==> s[j] != '/'
    ensures r.None? ==> forall j :: 0 <= j < |s| ==> s[j] != '/'
  {
    if |s| == 0 then None
    else if s[|s| - 1] == '/' then Some(|s| - 1)
    else LastSlash(s[..|s| - 1])
  }

  /** filepath.Join of two elements: empty elements are dropped, the rest separated by '/'. */
  function Join(dir: string, elem: string): string
  {
    if dir == "" then elem
    else if elem == "" then dir
    else dir + "/" + elem
  }

  /** filepath.Dir: everything before the last '/', "/" for a root entry, "." when there is no '/'. */
  function Dir(path: string): string
  {
    match LastSlash(path)
    case None => "."
    case Some(i) => if i == 0 then "/" else path[..i]
  }

  /** The directories MkdirAll(dir) makes sure exist: `dir` and every '/'-terminated prefix of it. */
  function Ancestors(dir: string): set<string>
  {
    {dir} + set i | 0 < i < |dir| && dir[i] == '/' :: dir[..i]
  }

  /** Joining onto a fixed directory never maps two elements to one path. */
  lemma JoinInjective(dir: string, a: string, b: string)
    requires Join(dir, a) == Join(dir, b)
    ensures a == b
  {
    if dir != "" && a != "" && b != "" {
      var n := |dir| + 1;
      assert a == Join(dir, a)[n..];
      assert b == Join(dir, b)[n..];
    }
  }

  /** An element without '/' joined onto a directory has that directory as its Dir. */
  lemma DirOfJoin(dir: string, elem: string)
    requires dir != "" && elem != ""
    requires '/' !in elem
    ensures Dir(Join(dir, elem)) == dir
  {
    var p := dir + "/" + elem;
    assert Join(dir, elem) == p;
    assert p[|dir|] == '/';
    var r := LastSlash(p);
    assert r.Some?;
    assert r.value == |dir|;
    assert p[..|dir|] == dir;
  }
}
