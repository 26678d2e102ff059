/**
 * The two path manipulations the extension relies on: `path.join(dir, name)`
 * for a plain file name, and `fsPath.split("/").pop()`, the last segment of a
 * path. Paths are POSIX strings separated by '/'.
 */
module Path {

  /** `path.join(dir, name)`, for a directory without a trailing separator. */
  function Join(dir: string, name: string): string
  {
    dir + "/" + name
  }

  /** Index of the last '/' in `p`, or -1 when `p` has none. */
  function LastSlash(p: string): (k: int)
    ensures -1 <= k < |p|
    ensures k >= 0 ==> p[k] == '/'
    ensures forall j :: k < j < |p| ==> p[j] != '/'
  {
    if |p| == 0 then -1
    else if p[|p| - 1] == '/' then |p| - 1
    else LastSlash(p[..|p| - 1])
  }

  /** True when the path names an entry inside some directory. */
  predicate HasDir(p: string)
  {
    LastSlash(p) >= 0
  }

  /**
   * `p.split("/").pop()`: everything after the last '/', or the whole path
   * when it has no separator.
   */
  function BaseName(p: string): (name: string)
    ensures '/' !in name
    ensures |name| <= |p| && name == p[|p| - |name|..]
    ensures name == p || (|name| < |p| && p[|p| - |name| - 1] == '/')
  {
    p[LastSlash(p) + 1..]
  }

  /** Everything before the last '/' (the empty string for a path without one). */
  function DirName(p: string): (dir: string)
    ensures |dir| < |p| || p == []
  {
    if LastSlash(p) < 0 then "" else p[..LastSlash(p)]
  }

  /** The directory of a path with a separator, followed by that separator, starts the path. */
  lemma DirNamePrefix(p: string)
    requires HasDir(p)
    ensures |DirName(p)| < |p| && DirName(p) + "/" <= p
  {
    var k := LastSlash(p);
    assert DirName(p) + "/" == p[..k + 1];
  }

  /** A proper ancestor of a path is its directory or an ancestor of that directory. */
  lemma AncestorOfDirName(q: string, p: string)
    requires q + "/" <= p
    ensures HasDir(p)
    ensures q == DirName(p) || q + "/" <= DirName(p)
  {
    assert p[|q|] == '/';
    var k := LastSlash(p);
    assert k >= |q|;
    if k > |q| {
      assert (q + "/") == p[..|q| + 1] == DirName(p)[..|q| + 1];
    } else {
      assert q == p[..|q|];
    }
  }

  /** Splitting a joined path at its last separator gives back its two halves. */
  lemma SplitJoin(dir: string, name: string)
    requires '/' !in name
    ensures HasDir(Join(dir, name))
    ensures DirName(Join(dir, name)) == dir
    ensures BaseName(Join(dir, name)) == name
  {
    var p := Join(dir, name);
    assert p[|dir|] == '/';
  }

  /** A path with a separator is the join of its directory and its last segment. */
  lemma JoinSplit(p: string)
    requires HasDir(p)
    ensures Join(DirName(p), BaseName(p)) == p
  {
  }

  /** Two paths with a separator that agree on both halves are the same path. */
  lemma SplitInjective(p: string, q: string)
    requires HasDir(p) && HasDir(q)
    requires DirName(p) == DirName(q) && BaseName(p) == BaseName(q)
    ensures p == q
  {
    JoinSplit(p);
    JoinSplit(q);
  }
}
