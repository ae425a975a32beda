/** A file and a directory of one path: the file is found, but unlink and open look
    for a directory first and refuse. Which calls let this happen. */
module Shadows {
  import opened Geometry
  import opened Paths
  import opened DirTree
  import opened Store
  import opened StoreProofs
  import opened Calls
  import opened CallProofs
  import opened Runs
  import opened Contents
  import opened Namespace

  /** The path that a directory at the place of a file has. */
  function DirPath(p: Place): string { p.dir + p.name + "/" }

  ghost predicate Shadowed(s: State, p: Place) {
    Find(s, p).Some? && DirPath(p) in Dirs(s)
  }

  /** No file shares its path with a directory. */
  ghost predicate NoShadow(s: State) {
    forall p {:trigger Shadowed(s, p)} :: !Shadowed(s, p)
  }

  /** No file has the path of directory `dir`, those in `homes` apart. */
  ghost predicate NoFileAt(s: State, dir: string, homes: set<string>) {
    forall p {:trigger Find(s, p)} :: Find(s, p).Some? && p.dir !in homes ==> DirPath(p) != dir
  }

  /** No file of directory `from` has the path of a directory once it is in `to`. */
  ghost predicate NoFileMoved(s: State, from: string, to: string) {
    forall name {:trigger Place(from, name)} ::
      Find(s, Place(from, name)).Some? ==> DirPath(Place(to, name)) !in Dirs(s) - {from}
  }

  /** What a call that succeeds must meet to keep files and directories apart. */
  ghost predicate StaysApart(s: State, op: Op)
    requires Callable(s, op)
  {
    match op
    case OpCreate(path) => DirPath(PlaceOf(path)) !in Dirs(s)
    case OpOpen(path, _) => LookupFile(s, path).None? ==> DirPath(PlaceOf(path)) !in Dirs(s)
    case OpMkdir(path) => NoFileAt(s, AsDir(path), {})
    case OpRename(from, to) =>
      if LookupFile(s, from).Some? then DirPath(TargetOf(to)) !in Dirs(s)
      else Taken(s, from, to) || (NoFileAt(s, AsDir(to), {AsDir(from)}) && NoFileMoved(s, AsDir(from), AsDir(to)))
    case _ => true
  }

  /** The same, place by place, in terms of what the call leaves behind. */
  ghost predicate ApartAfter(s: State, op: Op, p: Place)
    requires Callable(s, op)
  {
    FindAfter(s, op, p).Some? ==> DirPath(p) !in DirsAfter(s, op)
  }

  lemma ShadowAfter(s: State, op: Op)
    requires Inv(s) && Callable(s, op) && Step(s, op).1 == Done
    ensures NoShadow(Step(s, op).0) <==> forall p {:trigger ApartAfter(s, op, p)} :: ApartAfter(s, op, p)
  {
    hide Inv, Step, Find, FindAfter, DirsAfter, TruncatePick, PwritePick;
    StepNames(s, op);
    var t := Step(s, op).0;
    forall p ensures Shadowed(t, p) <==> !ApartAfter(s, op, p) { assert FoundAs(s, op, t, p); }
    if NoShadow(t) {
      forall p ensures ApartAfter(s, op, p) { assert !Shadowed(t, p); }
    } else {
      var p :| Shadowed(t, p);
      assert !ApartAfter(s, op, p);
    }
  }

  lemma QuietApart(s: State, op: Op)
    requires NoShadow(s) && Callable(s, op) && (op.OpTruncate? || op.OpFtruncate? || op.OpPwrite? || op.OpDup?)
    ensures forall p :: ApartAfter(s, op, p)
  {
    forall p ensures ApartAfter(s, op, p) { assert !Shadowed(s, p); }
  }

  lemma LessApart(s: State, op: Op)
    requires NoShadow(s) && Callable(s, op) && (op.OpUnlink? || op.OpClose? || op.OpRmdir?)
    ensures forall p :: ApartAfter(s, op, p)
  {
    hide LookupFile, PlaceOf;
    forall p ensures ApartAfter(s, op, p) { assert !Shadowed(s, p); }
  }

  lemma NewFileApart(s: State, op: Op)
    requires NoShadow(s) && Callable(s, op) && (op.OpCreate? || op.OpOpen?)
    ensures (forall p {:trigger ApartAfter(s, op, p)} :: ApartAfter(s, op, p)) <==> StaysApart(s, op)
  {
    hide LookupFile, PlaceOf, DirPath;
    forall p | p != PlaceOf(op.path) || (op.OpOpen? && LookupFile(s, op.path).Some?) ensures ApartAfter(s, op, p) {
      assert !Shadowed(s, p);
    }
    assert ApartAfter(s, op, PlaceOf(op.path)) <==> StaysApart(s, op);
  }

  lemma NewDirApart(s: State, path: string)
    requires NoShadow(s) && Callable(s, OpMkdir(path))
    ensures (forall p {:trigger ApartAfter(s, OpMkdir(path), p)} :: ApartAfter(s, OpMkdir(path), p))
      <==> StaysApart(s, OpMkdir(path))
  {
    hide AsDir, DirPath;
    var op := OpMkdir(path);
    forall p ensures ApartAfter(s, op, p) <==> (Find(s, p).Some? ==> DirPath(p) != AsDir(path)) {
      assert !Shadowed(s, p);
    }
    if NoFileAt(s, AsDir(path), {}) {
      forall p ensures ApartAfter(s, op, p) { assert Find(s, p).Some? ==> DirPath(p) != AsDir(path); }
    } else {
      var p :| Find(s, p).Some? && DirPath(p) == AsDir(path);
      assert !ApartAfter(s, op, p);
    }
  }

  lemma RenamedFileApart(s: State, from: string, to: string)
    requires NoShadow(s) && Callable(s, OpRename(from, to)) && LookupFile(s, from).Some?
    ensures (forall p {:trigger ApartAfter(s, OpRename(from, to), p)} :: ApartAfter(s, OpRename(from, to), p))
      <==> StaysApart(s, OpRename(from, to))
  {
    hide LookupFile, PlaceOf, TargetOf, DirPath, AsDir;
    var op := OpRename(from, to);
    forall p | p != TargetOf(to) ensures ApartAfter(s, op, p) { assert !Shadowed(s, p); }
    assert ApartAfter(s, op, TargetOf(to)) <==> StaysApart(s, op);
  }

  /** Where the files of a renamed directory are, one place at a time. */
  lemma RenamedPlace(s: State, from: string, to: string, p: Place)
    requires NoShadow(s) && Callable(s, OpRename(from, to)) && LookupFile(s, from).None? && !Taken(s, from, to)
    requires StaysApart(s, OpRename(from, to))
    ensures ApartAfter(s, OpRename(from, to), p)
  {
    hide LookupFile, PlaceOf, TargetOf, AsDir;
    var there := Place(AsDir(from), p.name);
    assert !Shadowed(s, p) && !Shadowed(s, there);
    assert p.dir == AsDir(to) ==> p == Place(AsDir(to), p.name) && |DirPath(p)| > |AsDir(to)|;
  }

  lemma RenamedDirClash(s: State, from: string, to: string)
    requires NoShadow(s) && Callable(s, OpRename(from, to)) && LookupFile(s, from).None? && !Taken(s, from, to)
    requires !StaysApart(s, OpRename(from, to))
    ensures exists p {:trigger ApartAfter(s, OpRename(from, to), p)} :: !ApartAfter(s, OpRename(from, to), p)
  {
    hide LookupFile, PlaceOf, TargetOf, AsDir;
    var op := OpRename(from, to);
    if !NoFileAt(s, AsDir(to), {AsDir(from)}) {
      var p :| Find(s, p).Some? && p.dir != AsDir(from) && DirPath(p) == AsDir(to);
      assert p.dir != AsDir(to);
      assert !ApartAfter(s, op, p);
    } else {
      var name :| Find(s, Place(AsDir(from), name)).Some? && DirPath(Place(AsDir(to), name)) in Dirs(s) - {AsDir(from)};
      assert !ApartAfter(s, op, Place(AsDir(to), name));
    }
  }

  lemma RenamedDirApart(s: State, from: string, to: string)
    requires NoShadow(s) && Callable(s, OpRename(from, to)) && LookupFile(s, from).None?
    ensures (forall p {:trigger ApartAfter(s, OpRename(from, to), p)} :: ApartAfter(s, OpRename(from, to), p))
      <==> StaysApart(s, OpRename(from, to))
  {
    hide LookupFile, PlaceOf, TargetOf, AsDir, DirPath, NoFileAt, NoFileMoved, ApartAfter;
    var op := OpRename(from, to);
    if Taken(s, from, to) {
      forall p ensures ApartAfter(s, op, p) { TakenPlace(s, from, to, p); }
    } else if StaysApart(s, op) {
      forall p ensures ApartAfter(s, op, p) { RenamedPlace(s, from, to, p); }
    } else {
      RenamedDirClash(s, from, to);
    }
  }

  lemma TakenPlace(s: State, from: string, to: string, p: Place)
    requires NoShadow(s) && Callable(s, OpRename(from, to)) && LookupFile(s, from).None? && Taken(s, from, to)
    ensures ApartAfter(s, OpRename(from, to), p)
  {
    hide LookupFile, AsDir, DirPath;
    assert !Shadowed(s, p);
  }

  /** One call keeps files and directories apart exactly when it fails or meets the
      condition for its kind. */
  lemma StepShadow(s: State, op: Op)
    requires Inv(s) && Callable(s, op) && NoShadow(s)
    ensures NoShadow(Step(s, op).0) <==> (Step(s, op).1 == Done ==> StaysApart(s, op))
  {
    hide Inv, Step, NoShadow, ApartAfter, LookupFile, AsDir, NoFileAt, NoFileMoved, TruncatePick, PwritePick;
    if Step(s, op).1 != Done {
      FailedShadow(s, op);
    } else {
      ShadowAfter(s, op);
      match op
      case OpCreate(_) => NewFileApart(s, op);
      case OpOpen(_, _) => NewFileApart(s, op);
      case OpMkdir(path) => NewDirApart(s, path);
      case OpRename(from, to) =>
        if LookupFile(s, from).Some? { RenamedFileApart(s, from, to); } else { RenamedDirApart(s, from, to); }
      case OpUnlink(_) => LessApart(s, op);
      case OpClose(_) => LessApart(s, op);
      case OpRmdir(_) => LessApart(s, op);
      case _ => QuietApart(s, op);
    }
  }

  lemma FailedShadow(s: State, op: Op)
    requires Inv(s) && Callable(s, op) && NoShadow(s) && Step(s, op).1 != Done
    ensures NoShadow(Step(s, op).0)
  {
    hide Inv, Step, DirPath, TruncatePick, PwritePick;
    StepNames(s, op);
    var t := Step(s, op).0;
    forall p ensures !Shadowed(t, p) { assert !Shadowed(s, p); }
  }

  /** Every call of the run that succeeds meets its condition. */
  ghost predicate ApartRun(s: State, ops: seq<Op>)
    requires PermittedRun(s, ops)
    decreases |ops|
  {
    ops != [] ==> (Step(s, ops[0]).1 == Done ==> StaysApart(s, ops[0])) && ApartRun(Step(s, ops[0]).0, ops[1..])
  }

  lemma {:induction false} RunShadow(s: State, ops: seq<Op>)
    requires Inv(s) && NoShadow(s) && PermittedRun(s, ops) && ApartRun(s, ops)
    ensures NoShadow(Run(s, ops))
    decreases |ops|
  {
    hide Inv, Step, Keeps, NoShadow, StaysApart;
    if ops != [] {
      StepShadow(s, ops[0]);
      StepKeepsInv(s, ops[0]);
      RunShadow(Step(s, ops[0]).0, ops[1..]);
    }
  }

  // ---------------------------------------------------------------- what a shadowed file suffers

  /** Create looks at files only. What it makes on the path of a directory is found,
      but can neither be opened nor be unlinked. */
  lemma CreateOverDirectory(s: State, path: string, create: bool)
    requires Inv(s) && |path| > 0 && Create(s, path).1 == Done
    ensures var t := Create(s, path).0;
      && LookupFile(t, path) == Some(s.nextId)
      && (Unlink(t, path).1 == Done <==> LookupDir(s, path).None?)
      && (Open(t, path, create).1 == Done <==> LookupDir(s, path).None?)
      && (LookupDir(s, path).Some? ==> Unlink(t, path) == (t, Refused) && Open(t, path, create) == (t, Refused))
  {
    hide Inv, GetDirName, GetFileName, AddWrites, DropFile, AddOpen;
  }
}
