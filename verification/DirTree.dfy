/** The directory tree of lib/dir_handle.cc and lib/directory.cc as names, a
    path-keyed map and per-directory child sets. A Directory object never
    changes its slot, so the slot number stands for the object. */
module DirTree {
  import opened Paths

  datatype Tree = Tree(
    names: map<nat, string>,        // created_dhs_, with each directory's dir_name
    byPath: map<string, nat>,       // created_dirs_
    kids: map<nat, set<nat>>)       // child_dir_maps_ of each live directory

  ghost predicate IsKid(t: Tree, c: nat, up: nat)
  {
    && c in t.names && up in t.names
    && |t.names[c]| > 0 && !IsMountPoint(t.names[c])
    && GetDirName(t.names[c]) == t.names[up]
  }

  ghost predicate PathOK(t: Tree, p: string)
  {
    && p in t.byPath && EndsWithSlash(p)
    && t.byPath[p] in t.names && t.names[t.byPath[p]] == p
    && (IsMountPoint(p) || GetDirName(p) in t.byPath)
  }

  ghost predicate NameOK(t: Tree, h: nat)
  {
    h in t.names && t.names[h] in t.byPath && t.byPath[t.names[h]] == h
  }

  ghost predicate KidOK(t: Tree, h: nat, c: nat)
  {
    h in t.kids && (c in t.kids[h] <==> IsKid(t, c, h))
  }

  /** Path map and names are inverse to each other, every parent exists, and each
      child set holds exactly the directories whose GetDirName is that path. */
  ghost predicate TreeOK(t: Tree) {
    && (forall p {:trigger PathOK(t, p)} :: p in t.byPath ==> PathOK(t, p))
    && (forall h {:trigger NameOK(t, h)} :: h in t.names ==> NameOK(t, h))
    && t.kids.Keys == t.names.Keys
    && (forall h, c {:trigger KidOK(t, h, c)} :: h in t.names ==> KidOK(t, h, c))
  }

  ghost predicate CanAdd(t: Tree, h: nat, path: string) {
    && EndsWithSlash(path) && path !in t.byPath && h !in t.names
    && (IsMountPoint(path) || GetDirName(path) in t.byPath)
  }

  /** The directory that holds `path`. */
  function UpOf(t: Tree, path: string): nat
    requires |path| > 0
  {
    if GetDirName(path) in t.byPath then t.byPath[GetDirName(path)] else 0
  }

  function KidsOf(t: Tree, h: nat): set<nat> {
    if h in t.kids then t.kids[h] else {}
  }

  /** DirHandle::AddDirectory. */
  function Add(t: Tree, h: nat, path: string): Tree
    requires |path| > 0
  {
    var up := UpOf(t, path);
    var kids := if IsMountPoint(path) then t.kids else t.kids[up := KidsOf(t, up) + {h}];
    Tree(t.names[h := path], t.byPath[path := h], kids[h := {}])
  }

  /** DirHandle::RemoveDirectory. */
  function Remove(t: Tree, h: nat): Tree
    requires h in t.names && |t.names[h]| > 0
  {
    var up := UpOf(t, t.names[h]);
    Tree(t.names - {h}, t.byPath - {t.names[h]}, (t.kids[up := KidsOf(t, up) - {h}]) - {h})
  }

  ghost predicate CanMove(t: Tree, h: nat, to: string) {
    && h in t.names && |t.names[h]| > 0 && !IsMountPoint(t.names[h])
    && EndsWithSlash(to) && !IsMountPoint(to) && GetDirName(to) in t.byPath
  }

  /** Directory::rename once both parents are found; it never looks at whether
      `to` is taken or whether children still carry the old prefix. */
  function Move(t: Tree, h: nat, to: string): Tree
    requires h in t.names && |t.names[h]| > 0 && |to| > 0
  {
    var oldUp := UpOf(t, t.names[h]);
    var newUp := UpOf(t, to);
    var kids1 := t.kids[oldUp := KidsOf(t, oldUp) - {h}];
    var kids := kids1[newUp := (if newUp in kids1 then kids1[newUp] else {}) + {h}];
    var paths := t.byPath - {t.names[h]};
    if to in paths then Tree(t.names - {h}, paths, kids)
    else Tree(t.names[h := to], paths[to := h], kids)
  }

  lemma AddKeepsTree(t: Tree, h: nat, path: string)
    requires TreeOK(t) && CanAdd(t, h, path)
    ensures TreeOK(Add(t, h, path))
  {
    hide GetDirName, IsMountPoint;
    assert !IsMountPoint(path) ==> PathOK(t, GetDirName(path));
    var e := Add(t, h, path);
    forall p | p in e.byPath ensures PathOK(e, p) {
      assert p in t.byPath ==> PathOK(t, p);
    }
    forall k | k in e.names ensures NameOK(e, k) {
      assert k in t.names ==> NameOK(t, k);
    }
    forall k, c | k in e.names ensures KidOK(e, k, c) {
      assert k in t.names ==> KidOK(t, k, c) && NameOK(t, k);
      assert c in t.names ==> NameOK(t, c) && PathOK(t, t.names[c]);
    }
  }

  lemma RemoveKeepsTree(t: Tree, h: nat)
    requires TreeOK(t) && h in t.names && !IsMountPoint(t.names[h]) && t.kids[h] == {}
    ensures |t.names[h]| > 0 && TreeOK(Remove(t, h))
  {
    hide GetDirName, IsMountPoint;
    assert NameOK(t, h) && PathOK(t, t.names[h]) && PathOK(t, GetDirName(t.names[h]));
    var e := Remove(t, h);
    forall p | p in e.byPath ensures PathOK(e, p) {
      assert PathOK(t, p);
      NoKid(t, h, t.byPath[p]);
    }
    forall k | k in e.names ensures NameOK(e, k) {
      assert NameOK(t, k);
    }
    forall k, c | k in e.names ensures KidOK(e, k, c) {
      assert KidOK(t, k, c);
      assert NameOK(t, k) && KidOK(t, k, h);
    }
  }

  /** A directory whose child set is empty is nobody's parent. */
  lemma NoKid(t: Tree, h: nat, c: nat)
    requires TreeOK(t) && h in t.names && t.kids[h] == {}
    ensures !IsKid(t, c, h)
  {
    assert KidOK(t, h, c);
  }

  ghost predicate MoveIsSafe(t: Tree, h: nat, to: string)
    requires h in t.names && |to| > 0
  {
    to == t.names[h] || (to !in t.byPath && h in t.kids && t.kids[h] == {} && GetDirName(to) != t.names[h])
  }

  lemma CanMoveMeans(t: Tree, h: nat, to: string)
    requires TreeOK(t) && CanMove(t, h, to)
    ensures NameOK(t, h) && PathOK(t, t.names[h]) && PathOK(t, GetDirName(t.names[h])) && PathOK(t, GetDirName(to))
  {
    hide GetDirName, IsMountPoint;
    assert NameOK(t, h) && PathOK(t, t.names[h]);
  }

  lemma MoveKeepsTree(t: Tree, h: nat, to: string)
    requires TreeOK(t) && CanMove(t, h, to) && to != t.names[h] && MoveIsSafe(t, h, to)
    ensures TreeOK(Move(t, h, to))
  {
    hide GetDirName, IsMountPoint;
    CanMoveMeans(t, h, to);
    var e := Move(t, h, to);
    forall p | p in e.byPath ensures PathOK(e, p) {
      if p != to {
        assert PathOK(t, p);
        NoKid(t, h, t.byPath[p]);
      }
    }
    forall k | k in e.names ensures NameOK(e, k) {
      assert NameOK(t, k);
    }
    forall k, c | k in e.names ensures KidOK(e, k, c) {
      MoveKid(t, h, to, k, c);
    }
  }

  lemma MoveKid(t: Tree, h: nat, to: string, k: nat, c: nat)
    requires TreeOK(t) && CanMove(t, h, to) && to != t.names[h] && MoveIsSafe(t, h, to)
    requires k in Move(t, h, to).names
    ensures k in Move(t, h, to).kids && KidOK(Move(t, h, to), k, c)
  {
    hide GetDirName, IsMountPoint;
    CanMoveMeans(t, h, to);
    assert KidOK(t, k, c) && NameOK(t, k);
    if c in t.names && c != h {
      assert NameOK(t, c) && PathOK(t, t.names[c]);
      NoKid(t, h, c);
    }
  }

  /** Renaming a directory to its own name changes nothing. */
  lemma MoveToItself(t: Tree, h: nat)
    requires TreeOK(t) && h in t.names && CanMove(t, h, t.names[h])
    ensures Move(t, h, t.names[h]) == t
  {
    hide GetDirName, IsMountPoint;
    CanMoveMeans(t, h, t.names[h]);
    var up := t.byPath[GetDirName(t.names[h])];
    assert KidOK(t, up, h);
    assert t.kids[up] - {h} + {h} == t.kids[up];
    assert (t.byPath - {t.names[h]})[t.names[h] := h] == t.byPath;
  }

  lemma UnsafeMoveBreaksTree(t: Tree, h: nat, to: string)
    requires TreeOK(t) && CanMove(t, h, to) && !MoveIsSafe(t, h, to)
    ensures !TreeOK(Move(t, h, to))
  {
    hide GetDirName, IsMountPoint;
    CanMoveMeans(t, h, to);
    var e := Move(t, h, to);
    var from := t.names[h];
    if to in t.byPath {
      assert PathOK(t, to) && h in e.kids && h !in e.names;
    } else if GetDirName(to) == from {
      assert to in e.byPath && !PathOK(e, to);
    } else {
      var c :| c in t.kids[h];
      assert KidOK(t, h, c) && NameOK(t, c) && c != h;
      assert t.names[c] in e.byPath && !PathOK(e, t.names[c]);
    }
  }

  /** The exact condition under which a rename leaves a tree behind. */
  lemma RenameKeepsTree(t: Tree, h: nat, to: string)
    requires TreeOK(t) && CanMove(t, h, to)
    ensures TreeOK(Move(t, h, to)) <==> MoveIsSafe(t, h, to)
  {
    if to == t.names[h] {
      MoveToItself(t, h);
    } else if MoveIsSafe(t, h, to) {
      MoveKeepsTree(t, h, to);
    } else {
      UnsafeMoveBreaksTree(t, h, to);
    }
  }

  /** `n` steps up from a directory path. */
  function Ancestor(p: string, n: nat): (r: string)
    requires EndsWithSlash(p)
    ensures EndsWithSlash(r)
  {
    if n == 0 then p else GetDirName(Ancestor(p, n - 1))
  }

  /** Every ancestor of a live directory is live, and the chain ends at the mount point. */
  lemma {:induction false} AncestorsAreLive(t: Tree, p: string, n: nat)
    requires TreeOK(t) && p in t.byPath
    ensures EndsWithSlash(p) && Ancestor(p, n) in t.byPath
    ensures n >= |p| ==> IsMountPoint(Ancestor(p, n))
    ensures |Ancestor(p, n)| <= |p| && (!IsMountPoint(Ancestor(p, n)) ==> |Ancestor(p, n)| + n <= |p|)
  {
    hide GetDirName, IsMountPoint;
    assert PathOK(t, p);
    if n > 0 {
      AncestorsAreLive(t, p, n - 1);
      assert PathOK(t, Ancestor(p, n - 1));
    }
  }

  /** Removing a directory leaves no descendant of it behind. */
  lemma RemoveLeavesNoOrphan(t: Tree, h: nat, p: string, n: nat)
    requires TreeOK(t) && h in t.names && !IsMountPoint(t.names[h]) && t.kids[h] == {}
    requires p in t.byPath && p != t.names[h]
    ensures EndsWithSlash(p) && Ancestor(p, n) != t.names[h]
  {
    hide GetDirName, IsMountPoint;
    assert PathOK(t, p);
    RemoveKeepsTree(t, h);
    AncestorsAreLive(Remove(t, h), p, n);
  }
}
