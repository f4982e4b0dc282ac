/**
 * The three POSIX path helpers the trigger uses (Node's path.basename,
 * path.dirname and path.join), reduced to a split of the string at its last
 * '/'. Normalisation of "..", of repeated slashes and of trailing slashes is
 * not modelled.
 */
module Paths {
  import opened Wrappers

  /** The index of the last '/' in `s`, if there is one. */
  function LastSlash(s: string): (r: Option<nat>)
    ensures r.None? <==> '/' !in s
    ensures r.Some? ==> r.value < |s| && s[r.value] == '/' && forall j :: r.value < j < |s| ==> s[j] != '/'
  {
    if s == [] then None
    else if s[|s| - 1] == '/' then Some(|s| - 1)
    else
      var t := s[..|s| - 1];
      assert s == t + [s[|s| - 1]];
      LastSlash(t)
  }

  /** No two '/' follow each other anywhere in `p`. */
  ghost predicate NoRepeatedSlash(p: string) {
    forall i, j :: 0 <= i < j < |p| && j == i + 1 ==> p[i] != '/' || p[j] != '/'
  }

  /** path.basename: the part of `p` after its last '/', or all of `p` when it has none. */
  function Basename(p: string): (r: string)
    ensures '/' !in r
    ensures '/' !in p ==> r == p
  {
    match LastSlash(p)
    case None => p
    case Some(i) => p[i + 1..]
  }

  /** The base name is the longest suffix of `p` that holds no '/'. */
  lemma BasenameIsLongestSlashFreeSuffix(p: string)
    ensures var r := Basename(p);
      |r| <= |p| && p[|p| - |r|..] == r && (|r| < |p| ==> p[|p| - |r| - 1] == '/')
  {
    var l := LastSlash(p);
    if l.Some? {
      assert Basename(p) == p[l.value + 1..];
    }
  }

  /**
   * path.dirname: "." when `p` holds no '/', "/" when its only separator
   * before the base name is the leading one, and otherwise everything before
   * the last '/'.
   */
  function Dirname(p: string): (r: string)
    ensures '/' !in p ==> r == "."
    ensures '/' in p ==> r <= p
    ensures LastSlash(p) == Some(0) ==> r == "/"
  {
    match LastSlash(p)
    case None => "."
    case Some(i) => if i == 0 then "/" else p[..i]
  }

  /** A path with a separator is its directory, a '/' unless that directory is the root, and its base name. */
  lemma DirnameBasenameSplit(p: string)
    requires '/' in p
    ensures var d := Dirname(p);
      if LastSlash(p) == Some(0) then d == "/" && p == d + Basename(p)
      else p == d + "/" + Basename(p)
  {
    var i := LastSlash(p).value;
    assert Basename(p) == p[i + 1..];
    SplitAtLastSlash(p, i);
    if i == 0 {
      assert p[..i] == [];
    }
  }

  /** A path whose last separator ends `s` has the slash-free `name` as its base name. */
  lemma LastSlashBeforeName(s: string, name: string)
    requires |s| > 0 && s[|s| - 1] == '/'
    ensures '/' !in name ==> LastSlash(s + name) == Some(|s| - 1) && Basename(s + name) == name
  {
    if '/' in name { return; }
    var t := s + name;
    assert t[|s| - 1] == '/';
    assert t[|s|..] == name;
  }

  /**
   * path.join of a directory and a file name: an empty or "." directory
   * contributes nothing, and a separator is inserted unless the directory
   * already ends with one.
   */
  function Join(dir: string, name: string): (r: string)
    ensures '/' !in name ==> Basename(r) == name
    ensures dir == "" || dir == "." ==> r == name
  {
    if dir == "" || dir == "." then name
    else if dir[|dir| - 1] == '/' then
      LastSlashBeforeName(dir, name); dir + name
    else
      LastSlashBeforeName(dir + "/", name); dir + "/" + name
  }

  /**
   * Putting a file name into the directory of `p` and taking the directory
   * again gives back the directory of `p`.
   */
  lemma DirnameOfJoin(p: string, name: string)
    requires '/' !in name && NoRepeatedSlash(p)
    ensures Dirname(Join(Dirname(p), name)) == Dirname(p)
  {
    var r := LastSlash(p);
    if r.None? { return; }
    var i := r.value;
    if i == 0 {
      assert Dirname(p) == "/";
      LastSlashBeforeName("/", name);
    } else {
      var d := p[..i];
      assert Dirname(p) == d;
      if d != "." {
        assert d[|d| - 1] == p[i - 1] != '/';
        assert Join(d, name) == (d + "/") + name;
        LastSlashBeforeName(d + "/", name);
      }
    }
  }

  /** Dirname, Basename and Join split a path and put it back together. */
  lemma JoinDirnameBasename(p: string)
    requires NoRepeatedSlash(p) && ('/' in p ==> Dirname(p) != ".")
    ensures Join(Dirname(p), Basename(p)) == p
  {
    var r := LastSlash(p);
    if r.None? { return; }
    if r.value == 0 {
      assert p == "/" + p[1..];
    } else {
      JoinAtInnerSlash(p, r.value);
    }
  }

  /** The case of `JoinDirnameBasename` where the last '/' is not the leading one. */
  lemma JoinAtInnerSlash(p: string, i: nat)
    requires NoRepeatedSlash(p) && Dirname(p) != "."
    requires LastSlash(p) == Some(i) && i > 0
    ensures Join(Dirname(p), Basename(p)) == p
  {
    assert p[i - 1] != '/';
    SplitAtLastSlash(p, i);
    JoinSplit(p[..i], p[i + 1..]);
  }

  /** A path is the part before its last '/', that '/', and the part after it. */
  lemma SplitAtLastSlash(p: string, i: nat)
    requires LastSlash(p) == Some(i)
    ensures p == p[..i] + "/" + p[i + 1..] && '/' !in p[i + 1..]
  {
    assert p == p[..i] + [p[i]] + p[i + 1..];
  }

  /** Joining the directory and base name of `dir/base` gives back `dir/base`. */
  lemma JoinSplit(dir: string, base: string)
    requires dir != "" && dir[|dir| - 1] != '/' && '/' !in base
    requires Dirname(dir + "/" + base) != "."
    ensures Join(Dirname(dir + "/" + base), Basename(dir + "/" + base)) == dir + "/" + base
  {
    SplitAtSeparator(dir, base);
    JoinWithSeparator(dir, base);
  }

  /** `dir/base` splits into `dir` and `base`. */
  lemma SplitAtSeparator(dir: string, base: string)
    requires dir != "" && dir[|dir| - 1] != '/' && '/' !in base
    ensures Basename(dir + "/" + base) == base && Dirname(dir + "/" + base) == dir
  {
    LastSlashBeforeName(dir + "/", base);
  }

  /** A directory that is neither empty nor "." nor ends in '/' is joined with one '/'. */
  lemma JoinWithSeparator(dir: string, name: string)
    requires dir != "" && dir != "." && dir[|dir| - 1] != '/'
    ensures Join(dir, name) == dir + "/" + name
  {
  }
}
