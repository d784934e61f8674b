/** The `posixpath` functions the pipeline uses: `rfind`, `basename`, `splitext` and `join`. */
module Paths {

  /** `s.rfind(c)`: the index of the last occurrence of `c`, or -1. */
  function LastIndexOf(s: string, c: char): (r: int)
    ensures -1 <= r < |s|
    ensures r >= 0 ==> s[r] == c
    ensures forall k :: r < k < |s| ==> s[k] != c
  {
    if s == [] then -1
    else if s[|s| - 1] == c then |s| - 1
    else LastIndexOf(s[..|s| - 1], c)
  }

  lemma {:induction false} LastIndexOfAbsent(s: string, c: char)
    requires c !in s
    ensures LastIndexOf(s, c) == -1
  {
    if s != [] {
      assert s[|s| - 1] in s;
      assert forall x :: x in s[..|s| - 1] ==> x in s;
      LastIndexOfAbsent(s[..|s| - 1], c);
    }
  }

  /** `rfind` over `a + b` when `c` does not occur in `b`: the answer lies in `a`. */
  lemma {:induction false} LastIndexOfAppend(a: string, b: string, c: char)
    requires c !in b
    ensures LastIndexOf(a + b, c) == LastIndexOf(a, c)
    decreases |b|
  {
    if b != [] {
      assert (a + b)[|a + b| - 1] == b[|b| - 1];
      assert b[|b| - 1] in b;
      assert (a + b)[..|a + b| - 1] == a + b[..|b| - 1];
      assert forall x :: x in b[..|b| - 1] ==> x in b;
      LastIndexOfAppend(a, b[..|b| - 1], c);
    } else {
      assert a + b == a;
    }
  }

  /** `os.path.basename(p)`: what follows the last '/'. */
  function Basename(p: string): (r: string)
    ensures '/' !in r
    ensures |r| <= |p| && r == p[|p| - |r|..]
    ensures |r| == |p| || p[|p| - |r| - 1] == '/'
  {
    var i := LastIndexOf(p, '/') + 1;
    assert forall x :: x in p[i..] ==> x != '/';
    p[i..]
  }

  predicate AllDots(s: string) {
    forall i :: 0 <= i < |s| ==> s[i] == '.'
  }

  /**
   * `os.path.splitext(p)`: the extension starts at the last '.' after the last
   * '/', unless everything between that '/' and the dot is dots (".bashrc").
   */
  function SplitExt(p: string): (r: (string, string))
    ensures r.0 + r.1 == p
    ensures r.1 == [] || (r.1[0] == '.' && '.' !in r.1[1..] && '/' !in r.1)
  {
    var sep := LastIndexOf(p, '/');
    var dot := LastIndexOf(p, '.');
    if dot > sep && !AllDots(p[sep + 1..dot]) then
      ExtensionShape(p, sep, dot);
      (p[..dot], p[dot..])
    else
      (p, [])
  }

  lemma ExtensionShape(p: string, sep: int, dot: int)
    requires sep == LastIndexOf(p, '/') && dot == LastIndexOf(p, '.') && dot > sep
    ensures var e := p[dot..]; e[0] == '.' && '.' !in e[1..] && '/' !in e
  {
    var e := p[dot..];
    forall k | 0 <= k < |e| ensures e[k] != '/' && (k > 0 ==> e[k] != '.') {
      assert e[k] == p[dot + k];
    }
  }

  /** `os.path.join(a, b)` for two components. */
  function Join(a: string, b: string): (r: string)
    ensures |b| <= |r| && r[|r| - |b|..] == b
  {
    if b != [] && b[0] == '/' then b
    else if a == [] || a[|a| - 1] == '/' then a + b
    else a + "/" + b
  }

  /** Joining a plain file name onto a directory and taking the basename gives the name back. */
  lemma BasenameOfJoin(dir: string, name: string)
    requires '/' !in name
    ensures Basename(Join(dir, name)) == name
  {
    var r := Join(dir, name);
    assert name != [] ==> name[0] in name;
    if dir == [] {
      assert r == name;
      LastIndexOfAbsent(name, '/');
    } else if dir[|dir| - 1] == '/' {
      assert r == dir + name;
      LastIndexOfAppend(dir, name, '/');
      assert LastIndexOf(dir, '/') == |dir| - 1;
    } else {
      assert r == (dir + "/") + name;
      LastIndexOfAppend(dir + "/", name, '/');
      assert LastIndexOf(dir + "/", '/') == |dir|;
    }
  }
}
