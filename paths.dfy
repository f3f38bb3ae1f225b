/** The POSIX path helpers the program calls: `os.path.isabs`,
    `os.path.join` (two arguments) and `os.path.basename`. */
module Paths {

  predicate IsAbs(p: string)
  {
    |p| > 0 && p[0] == '/'
  }

  /** `os.path.join(a, b)`: an absolute `b` replaces `a`; otherwise `b` is
      appended with one '/' between them unless `a` is empty or already
      ends with '/'. */
  function PathJoin(a: string, b: string): string
  {
    if IsAbs(b) then b
    else if a == "" || a[|a| - 1] == '/' then a + b
    else a + "/" + b
  }

  /** `os.path.basename(p)`: what follows the last '/'. The contract
      characterises it as the longest suffix of `p` without a '/'. */
  function Basename(p: string): (r: string)
    ensures '/' !in r
    ensures |r| <= |p| && r == p[|p| - |r|..]
    ensures |r| == |p| || p[|p| - |r| - 1] == '/'
  {
    if |p| == 0 || p[|p| - 1] == '/' then ""
    else
      var r := Basename(p[..|p| - 1]) + [p[|p| - 1]];
      assert p[..|p| - 1][|p| - |r|..] == p[|p| - |r|..|p| - 1];
      r
  }

  /** Behind a directory part that is empty or ends in '/', the name is
      the whole base name: a shorter one would stop at a '/' inside the
      name, a longer one would take in the directory's final '/'. */
  lemma BasenameAfterSlash(dir: string, name: string)
    requires '/' !in name
    requires dir == "" || dir[|dir| - 1] == '/'
    ensures Basename(dir + name) == name
  {
    var p := dir + name;
    var r := Basename(p);
    assert p[|dir|..] == name;
  }

  /** The stored file name of a data file is recovered from its full
      path: `basename(join(dir, name)) == name` for a plain name. */
  lemma BasenameOfJoin(dir: string, name: string)
    requires '/' !in name
    ensures Basename(PathJoin(dir, name)) == name
  {
    assert !IsAbs(name);
    if dir == "" || dir[|dir| - 1] == '/' {
      BasenameAfterSlash(dir, name);
    } else {
      assert PathJoin(dir, name) == (dir + "/") + name;
      BasenameAfterSlash(dir + "/", name);
    }
  }

  /** A joined path ends with the name joined on. */
  lemma JoinKeepsName(dir: string, name: string)
    ensures var p := PathJoin(dir, name); |name| <= |p| && p[|p| - |name|..] == name
  {
    var p := PathJoin(dir, name);
    if !IsAbs(name) {
      var q := if dir == "" || dir[|dir| - 1] == '/' then dir else dir + "/";
      assert p == q + name;
      assert p[|q|..] == name;
    }
  }

  /** A name joined onto an absolute directory gives an absolute path. */
  lemma JoinOntoAbsolute(dir: string, name: string)
    ensures IsAbs(dir) ==> IsAbs(PathJoin(dir, name))
  {
    if IsAbs(dir) && !IsAbs(name) {
      var q := if dir[|dir| - 1] == '/' then dir else dir + "/";
      assert PathJoin(dir, name) == q + name;
      assert (q + name)[0] == dir[0];
    }
  }
}
