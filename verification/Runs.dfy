/** Whole runs: any sequence of calls, starting from an empty mounted device. */
module Runs {
  import opened Geometry
  import opened Store
  import opened Calls
  import opened CallProofs

  /** One call with its arguments; `ids` is what the block pool answers. */
  datatype Op =
    | OpCreate(path: string)
    | OpTruncate(path: string, size: nat, ids: seq<nat>)
    | OpFtruncate(fd: nat, size: nat, ids: seq<nat>)
    | OpPwrite(fd: nat, data: seq<byte>, off: nat, ids: seq<nat>)
    | OpOpen(path: string, create: bool)
    | OpDup(fd: nat)
    | OpClose(fd: nat)
    | OpUnlink(path: string)
    | OpRename(path: string, to: string)
    | OpMkdir(path: string)
    | OpRmdir(path: string)

  predicate HasPath(op: Op) {
    op.OpCreate? || op.OpTruncate? || op.OpOpen? || op.OpUnlink? || op.OpRename? || op.OpMkdir? || op.OpRmdir?
  }

  /** Paths are not empty, and the pool answers with free ids. */
  ghost predicate Callable(s: State, op: Op) {
    && (HasPath(op) ==> |op.path| > 0) && (op.OpRename? ==> |op.to| > 0)
    && (op.OpTruncate? && FileOf(s, op).Some? ==> TruncatePick(s, FileOf(s, op).value, op.size, op.ids))
    && (op.OpFtruncate? && FileOf(s, op).Some? ==> TruncatePick(s, FileOf(s, op).value, op.size, op.ids))
    && (op.OpPwrite? && FileOf(s, op).Some? ==> PwritePick(s, FileOf(s, op).value, op.data, op.off, op.ids))
  }

  /** And a rename is safe, and a file is opened only while there is a descriptor
      that is not in use: StepKeeps shows that this is all that is needed. */
  ghost predicate Permitted(s: State, op: Op) {
    && Callable(s, op)
    && (op.OpRename? ==> RenameIsSafe(s, op.path, op.to))
    && ((op.OpOpen? || op.OpDup?) && Step(s, op).1 == Done ==> FdLeft(s))
  }

  /** The file that a path or a descriptor stands for. */
  function FileOf(s: State, op: Op): (f: Option<nat>)
    requires HasPath(op) ==> |op.path| > 0
    ensures f.Some? ==> f.value in s.files
  {
    var f := if HasPath(op) then LookupFile(s, op.path)
             else if op.fd in s.open then Some(s.open[op.fd]) else None;
    if f.Some? && f.value in s.files then f else None
  }

  function Step(s: State, op: Op): (State, Outcome)
    requires (HasPath(op) ==> |op.path| > 0) && (op.OpRename? ==> |op.to| > 0)
  {
    var f := FileOf(s, op);
    match op
    case OpCreate(path) => Create(s, path)
    case OpTruncate(_, size, ids) => if f.None? then (s, Refused) else Truncate(s, f.value, size, ids)
    case OpFtruncate(_, size, ids) => if f.None? then (s, Refused) else Truncate(s, f.value, size, ids)
    case OpPwrite(_, data, off, ids) => if f.None? then (s, Refused) else Pwrite(s, f.value, data, off, ids)
    case OpOpen(path, create) => Open(s, path, create)
    case OpDup(fd) => Dup(s, fd)
    case OpClose(fd) => Close(s, fd)
    case OpUnlink(path) => Unlink(s, path)
    case OpRename(path, to) => Rename(s, path, to)
    case OpMkdir(path) => Mkdir(s, path)
    case OpRmdir(path) => Rmdir(s, path)
  }

  /** One call keeps the invariant exactly when it is permitted; unless it leaks it
      then loses no block. */
  lemma StepKeeps(s: State, op: Op)
    requires Inv(s) && Callable(s, op)
    ensures Inv(Step(s, op).0) <==> Permitted(s, op)
    ensures Permitted(s, op) ==> Keeps(s, Step(s, op).0, Step(s, op).1)
  {
    hide Inv, Conserved, FdLeft, TruncatePick, PwritePick, RenameIsSafe, LookupFile, Create, Truncate, Pwrite, Open,
         Close, Unlink, Rename, Mkdir, Rmdir, AddOpen;
    var f := FileOf(s, op);
    match op
    case OpCreate(path) => CreateKeeps(s, path);
    case OpTruncate(_, size, ids) => if f.Some? { TruncateKeeps(s, f.value, size, ids); }
    case OpFtruncate(_, size, ids) => if f.Some? { TruncateKeeps(s, f.value, size, ids); }
    case OpPwrite(_, data, off, ids) => if f.Some? { PwriteKeeps(s, f.value, data, off, ids); }
    case OpOpen(path, create) => OpenKeeps(s, path, create);
    case OpDup(fd) => if f.Some? { AddOpenKeeps(s, f.value); }
    case OpClose(fd) => CloseKeeps(s, fd);
    case OpUnlink(path) => UnlinkKeeps(s, path);
    case OpRename(path, to) => RenameKeeps(s, path, to);
    case OpMkdir(path) => MkdirKeeps(s, path);
    case OpRmdir(path) => RmdirKeeps(s, path);
  }

  // ---------------------------------------------------------------- runs

  /** Every call of the run is permitted where it is made. */
  ghost predicate PermittedRun(s: State, ops: seq<Op>)
    decreases |ops|
  {
    ops != [] ==> Permitted(s, ops[0]) && PermittedRun(Step(s, ops[0]).0, ops[1..])
  }

  ghost function Run(s: State, ops: seq<Op>): State
    requires PermittedRun(s, ops)
    decreases |ops|
  {
    if ops == [] then s else Run(Step(s, ops[0]).0, ops[1..])
  }

  /** Some call of the run failed after taking slots or blocks. */
  ghost predicate LeakingRun(s: State, ops: seq<Op>)
    requires PermittedRun(s, ops)
    decreases |ops|
  {
    ops != [] && (Step(s, ops[0]).1 == Leaked || LeakingRun(Step(s, ops[0]).0, ops[1..]))
  }

  /** Ownership over whole runs: pool and block lists stay duplicate-free, in
      range and disjoint whatever fails; without a leak they also cover every block. */
  lemma {:induction false} RunKeeps(s: State, ops: seq<Op>)
    requires Inv(s) && PermittedRun(s, ops)
    ensures Inv(Run(s, ops))
    ensures Conserved(s) && !LeakingRun(s, ops) ==> Conserved(Run(s, ops))
    decreases |ops|
  {
    hide Inv, Conserved, Step;
    if ops != [] {
      StepKeeps(s, ops[0]);
      RunKeeps(Step(s, ops[0]).0, ops[1..]);
    }
  }
}
