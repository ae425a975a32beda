/** What the parent and the file name of a path are: for paths in the usual form,
    and for every path whatever. */
module PathProofs {
  import opened Geometry
  import opened Paths

  /** `k` separators. */
  function Slashes(k: nat): (r: string)
    ensures |r| == k && forall i :: 0 <= i < k ==> r[i] == '/'
  {
    seq(k, _ => '/')
  }

  /** One component of a path. */
  predicate IsName(name: string) { name != "" && '/' !in name }

  /** A directory path that ends in exactly one separator. */
  predicate IsDirPath(dir: string) {
    EndsWithSlash(dir) && (dir == "/" || (|dir| > 1 && dir[|dir| - 2] != '/'))
  }

  lemma LastSlashIs(p: string, i: nat)
    requires i < |p| && p[i] == '/' && forall j :: i < j < |p| ==> p[j] != '/'
    ensures LastSlash(p) == i
  {
    assert p[i] == '/';
  }

  lemma NoSlash(p: string)
    requires '/' !in p
    ensures LastSlash(p) == -1
  {
    assert forall i :: 0 <= i < |p| ==> p[i] in p;
  }

  lemma {:induction false} StripAll(d: string, k: nat)
    requires !EndsWithSlash(d)
    ensures StripSlashes(d + Slashes(k)) == d
  {
    var p := d + Slashes(k);
    if k == 0 {
      assert p == d;
    } else {
      assert p[..|p| - 1] == d + Slashes(k - 1);
      StripAll(d, k - 1);
    }
  }

  /** A path in parts: what stands before the last component, `k` separators, the
      component, and `j` separators behind it. */
  function Path(d: string, k: nat, name: string, j: nat): string { d + Slashes(k) + name + Slashes(j) }

  predicate InParts(d: string, k: nat, name: string) {
    !EndsWithSlash(d) && IsName(name) && (d == "" || k > 0)
  }

  lemma BeforeName(d: string, k: nat, name: string)
    requires InParts(d, k, name)
    ensures LastSlash(d + Slashes(k) + name) == |d| + k - 1
    ensures ParentPath(d + Slashes(k) + name) == if d != "" then d else if k > 0 then "/" else ""
  {
    var p := d + Slashes(k) + name;
    forall i | |d| + k <= i < |p| ensures p[i] != '/' { assert p[i] == name[i - |d| - k] && p[i] in name; }
    if k > 0 {
      LastSlashIs(p, |d| + k - 1);
      assert p[..|d| + k - 1] == d + Slashes(k - 1);
      StripAll(d, k - 1);
    } else {
      NoSlash(p);
    }
  }

  /** The parent of every path that has a component. With at most one separator at
      the end it is what stands before the component, with one separator, and the
      root when that is nothing; with more of them it is the path itself. */
  lemma GetDirNameIs(d: string, k: nat, name: string, j: nat)
    requires InParts(d, k, name)
    ensures var p := Path(d, k, name, j);
      && |p| > 0
      && GetDirName(p) == (if j >= 2 then d + Slashes(k) + name + "/" else if d == "" then "/" else d + "/")
      && (j == 0 ==> GetFileName(p) == name) && (j > 0 ==> GetFileName(p) == "")
      && (EndsWithSlash(p) <==> j > 0)
  {
    hide ParentPath;
    var q := d + Slashes(k) + name;
    var p := Path(d, k, name, j);
    NameEnds(q, name);
    BeforeName(d, k, name);
    if j == 0 {
      assert p == q;
      assert p[|d| + k..] == name;
    } else {
      assert p == q + Slashes(j) && p[..|p| - 1] == q + Slashes(j - 1);
      LastSlashIs(p, |p| - 1);
      if j == 1 { assert q + Slashes(0) == q; } else { ManyAtEnd(q, j); }
    }
  }

  lemma NameEnds(q: string, name: string)
    requires IsName(name) && |q| >= |name| && q[|q| - |name|..] == name
    ensures !EndsWithSlash(q)
  {
    assert q[|q| - 1] == name[|name| - 1] && name[|name| - 1] in name;
  }

  lemma ManyAtEnd(q: string, j: nat)
    requires j >= 2 && q != "" && !EndsWithSlash(q)
    ensures ParentPath(q + Slashes(j - 1)) == q
  {
    var t := q + Slashes(j - 1);
    LastSlashIs(t, |t| - 1);
    assert t[..|t| - 1] == q + Slashes(j - 2);
    StripAll(q, j - 2);
  }

  /** The parent of a path of separators is the root. */
  lemma OnlySlashes(k: nat)
    requires k > 0
    ensures GetDirName(Slashes(k)) == "/" && GetFileName(Slashes(k)) == "" && EndsWithSlash(Slashes(k))
  {
    var p := Slashes(k);
    LastSlashIs(p, k - 1);
    if k > 1 {
      var t := p[..k - 1];
      assert t == Slashes(k - 1);
      LastSlashIs(t, k - 2);
      assert t[..k - 2] == "" + Slashes(k - 2);
      StripAll("", k - 2);
    } else {
      assert p == "/";
    }
  }

  /** These are all paths there are. */
  lemma EveryPath(p: string) returns (d: string, k: nat, name: string, j: nat)
    requires p != "" && p != Slashes(|p|)
    ensures InParts(d, k, name) && p == Path(d, k, name, j)
  {
    hide LastSlash, StripSlashes, Slashes;
    var q := StripSlashes(p);
    StripGives(p);
    j := |p| - |q|;
    AllSlashes(p, q, j);
    d, k, name := EndsInName(q);
  }

  lemma EndsInName(q: string) returns (d: string, k: nat, name: string)
    requires q != "" && !EndsWithSlash(q)
    ensures InParts(d, k, name) && q == d + Slashes(k) + name
  {
    hide LastSlash, StripSlashes, Slashes, IsName, EndsWithSlash;
    var i := LastSlash(q);
    name := q[i + 1..];
    NameBehind(q, i);
    d := StripSlashes(q[..i + 1]);
    StripGives(q[..i + 1]);
    k := i + 1 - |d|;
    FrontEnds(q, i, d, k);
    PartsJoin(q, i, d + Slashes(k), name);
  }

  lemma AllSlashes(p: string, q: string, j: nat)
    requires p == q + Slashes(j) && p != Slashes(|p|)
    ensures q != ""
  {
    assert "" + Slashes(j) == Slashes(j);
  }

  lemma PartsJoin(q: string, i: int, front: string, name: string)
    requires -1 <= i < |q| && front == q[..i + 1] && name == q[i + 1..]
    ensures q == front + name
  { }

  lemma {:induction false} StripGives(p: string)
    ensures p == StripSlashes(p) + Slashes(|p| - |StripSlashes(p)|) && !EndsWithSlash(StripSlashes(p))
  {
    if EndsWithSlash(p) {
      var t := p[..|p| - 1];
      StripGives(t);
      assert p == t + "/";
    }
  }

  lemma NameBehind(q: string, i: int)
    requires q != "" && !EndsWithSlash(q) && i == LastSlash(q)
    ensures IsName(q[i + 1..])
  {
    hide LastSlash;
    var name := q[i + 1..];
    forall x | 0 <= x < |name| ensures name[x] != '/' { assert name[x] == q[i + 1 + x]; }
  }

  /** What stands before the name ends in a separator unless it is nothing. */
  lemma FrontEnds(q: string, i: int, d: string, k: nat)
    requires i == LastSlash(q) && i < |q| && q[..i + 1] == d + Slashes(k) && !EndsWithSlash(d)
    ensures d == "" || k > 0
  {
    hide LastSlash;
    assert i >= 0 ==> EndsWithSlash(q[..i + 1]);
    assert d + Slashes(0) == d;
  }

  /** For a directory path `dir` and one component below it: `dir` is its parent,
      with or without a separator at the end. */
  lemma ParentIs(dir: string, name: string)
    requires IsDirPath(dir) && IsName(name)
    ensures GetDirName(dir + name) == dir && GetFileName(dir + name) == name && !EndsWithSlash(dir + name)
    ensures GetDirName(dir + name + "/") == dir && GetFileName(dir + name + "/") == ""
  {
    var d := dir[..|dir| - 1];
    var k := 1;
    assert dir == d + Slashes(1);
    assert dir + name == Path(d, 1, name, 0) && dir + name + "/" == Path(d, 1, name, 1);
    GetDirNameIs(d, 1, name, 0);
    GetDirNameIs(d, 1, name, 1);
  }

  /** The path of a directory has one separator more at its end, unless it had one. */
  lemma AsDirIs(dir: string, name: string)
    requires IsDirPath(dir) && IsName(name)
    ensures AsDir(dir + name) == dir + name + "/" && AsDir(dir + name + "/") == dir + name + "/" && AsDir(dir) == dir
    ensures IsDirPath(dir + name + "/")
  {
    ParentIs(dir, name);
    var p := dir + name;
    assert p[|p| - 1] == name[|name| - 1] && name[|name| - 1] in name;
  }

  /** What the name field of a slot keeps of a name. */
  lemma StoredNameIs(n: string)
    ensures StoredName(n) <= n
    ensures |StoredName(n)| == if |n| < 64 then |n| else 64
  { }
}
