/** Any number of runs with a mount after each, and mounting after a call that
    leaked. */
module Sessions {
  import opened Geometry
  import opened Paths
  import opened DirTree
  import opened Store
  import opened Calls
  import opened Runs
  import opened Contents
  import opened Namespace
  import opened Persist
  import opened PersistCalls
  import opened Mount
  import opened Remount
  import opened Format

  function Remounted(s: State): Option<State> {
    MountImage(s.tab.disk, s.num, s.dev)
  }

  /** Every run is permitted and leak-free where it is made: the first in state
      `s`, each later one in what the mount after the run before it has found. */
  ghost predicate PermittedSessions(s: State, runs: seq<seq<Op>>)
    decreases |runs|
  {
    runs != [] ==>
      && PermittedRun(s, runs[0]) && !LeakingRun(s, runs[0])
      && (Remounted(Run(s, runs[0])).Some? ==> PermittedSessions(Remounted(Run(s, runs[0])).value, runs[1..]))
  }

  ghost predicate SameFile(s: State, m: State, k: (nat, string)) {
    k in s.byName ==>
      && k in m.byName && m.byName[k] in m.files && s.byName[k] in s.files
      && ContentOf(m, m.byName[k]) == ContentOf(s, s.byName[k])
  }

  /** What one run and the mount after it guarantee. */
  ghost predicate SessionHolds(s: State, ops: seq<Op>)
    requires PermittedRun(s, ops)
  {
    var e := Run(s, ops);
    var m := Remounted(e);
    && Reached(e, false) && Refines(s, ops) && NamesFollow(s, ops)
    && (m.Some? <==> Named(e))
    && (!NamelessRun(s, ops) ==> m.Some?)
    && (m.Some? ==>
          && Rebuilt(e, m.value) && Reached(m.value, false)
          && forall k {:trigger SameFile(e, m.value, k)} :: SameFile(e, m.value, k))
  }

  ghost predicate SessionsHold(s: State, runs: seq<seq<Op>>)
    requires PermittedSessions(s, runs)
    decreases |runs|
  {
    runs != [] ==>
      && SessionHolds(s, runs[0])
      && (Remounted(Run(s, runs[0])).Some? ==> SessionsHold(Remounted(Run(s, runs[0])).value, runs[1..]))
  }

  lemma OneSession(s: State, ops: seq<Op>)
    requires Reached(s, false) && Named(s) && PermittedRun(s, ops) && !LeakingRun(s, ops)
    ensures SessionHolds(s, ops)
    ensures Remounted(Run(s, ops)).Some? ==> Named(Remounted(Run(s, ops)).value)
  {
    hide Inv, Sound, Conserved, NoneLost, SlotsOK, Persisted, MountImage, Rebuilt, ContentOf, Named, Refines,
         NamesFollow;
    RunKeeps(s, ops);
    RunKeepsTables(s, ops);
    RunRefines(s, ops);
    RunNames(s, ops);
    var e := Run(s, ops);
    InvIsSound(e);
    ConservedParts(e);
    RemountRebuilds(e);
    if !NamelessRun(s, ops) { RunKeepsNames(s, ops); }
    if Named(e) {
      var m := Remounted(e).value;
      RemountIsGood(e, m);
      forall k ensures SameFile(e, m, k) { RemountKeepsContents(e, m, k); }
    }
  }

  /** Over any number of sessions: each one keeps everything that is promised of a
      run, and the mount after it succeeds exactly when every file has a name and
      then gives back the state in which the session ended. */
  lemma {:induction false} AllSessions(s: State, runs: seq<seq<Op>>)
    requires Reached(s, false) && Named(s) && PermittedSessions(s, runs)
    ensures SessionsHold(s, runs)
    decreases |runs|
  {
    hide Reached, Named, SessionHolds, MountImage;
    if runs != [] {
      OneSession(s, runs[0]);
      var m := Remounted(Run(s, runs[0]));
      if m.Some? {
        MountIsReached(s, runs[0]);
        AllSessions(m.value, runs[1..]);
      }
    }
  }

  lemma MountIsReached(s: State, ops: seq<Op>)
    requires PermittedRun(s, ops) && SessionHolds(s, ops) && Remounted(Run(s, ops)).Some?
    ensures Reached(Remounted(Run(s, ops)).value, false)
  {
    hide Reached, Rebuilt, MountImage;
  }

  /** From a freshly formatted device on. */
  lemma SessionsFromFormat(dirs: nat, files: nat, blocks: nat, num: nat, dev: seq<byte>, runs: seq<seq<Op>>)
    requires DATA_START + num * B <= |dev|
    ensures Mounted(dirs, files, blocks, num, dev).Some?
    ensures var m := Mounted(dirs, files, blocks, num, dev).value;
      PermittedSessions(m, runs) ==> SessionsHold(m, runs)
  {
    hide Inv, Conserved, SlotsOK, Persisted, MountImage, FormatImage, Named;
    FormatMounts(dirs, files, blocks, num, dev);
    var m := Mounted(dirs, files, blocks, num, dev).value;
    if PermittedSessions(m, runs) { AllSessions(m, runs); }
  }

  // ---------------------------------------------------------------- after a leak

  lemma LeakedTruncate(s: State, f: nat, size: nat, ids: seq<nat>)
    requires f in s.files && Truncate(s, f, size, ids).1 == Leaked
    ensures var t := Truncate(s, f, size, ids).0;
      t.tab.disk == s.tab.disk && t.dev == s.dev && t.num == s.num
  {
    hide ExtendRefused, ExtendOverflows, ShrinkLeaks, ShrinkReady;
  }

  lemma LeakedPwrite(s: State, f: nat, data: seq<byte>, off: nat, ids: seq<nat>)
    requires f in s.files && Pwrite(s, f, data, off, ids).1 == Leaked
    ensures var t := Pwrite(s, f, data, off, ids).0;
      t.tab.disk == s.tab.disk && t.dev == s.dev && t.num == s.num
  {
    hide ExtendRefused, ExtendOverflows, Put;
  }

  /** Only truncate and pwrite leak, and then they have not written to the device. */
  lemma LeakLeavesDevice(s: State, op: Op)
    requires Callable(s, op) && Step(s, op).1 == Leaked
    ensures Step(s, op).0.tab.disk == s.tab.disk && Step(s, op).0.dev == s.dev && Step(s, op).0.num == s.num
  {
    hide TruncatePick, PwritePick, LookupFile, LookupDir, Truncate, Pwrite, NameClash, GetDirName, GetFileName, Rename;
    var f := FileOf(s, op);
    match op
    case OpTruncate(_, size, ids) => if f.Some? { LeakedTruncate(s, f.value, size, ids); }
    case OpFtruncate(_, size, ids) => if f.Some? { LeakedTruncate(s, f.value, size, ids); }
    case OpPwrite(_, data, off, ids) => if f.Some? { LeakedPwrite(s, f.value, data, off, ids); }
    case OpRename(from, to) => RenameNeverLeaks(s, from, to);
    case _ =>
  }

  lemma RenameNeverLeaks(s: State, from: string, to: string)
    requires |from| > 0 && |to| > 0
    ensures Rename(s, from, to).1 != Leaked
  {
    hide LookupFile, LookupDir, GetDirName, GetFileName, RenamedDir, MoveFile, Move;
  }

  /** A leak is undone by a mount: before any further slot write the device mounts
      as it would have before the call, and to the state before the call. */
  lemma LeakThenMount(s: State, op: Op)
    requires Inv(s) && NoneLost(s) && SlotsOK(s) && Persisted(s) && Callable(s, op) && Step(s, op).1 == Leaked
    ensures Remounted(Step(s, op).0).Some? <==> Named(s)
    ensures Named(s) ==> Rebuilt(s, Remounted(Step(s, op).0).value)
  {
    hide Inv, Sound, NoneLost, SlotsOK, Persisted, Named, MountImage, Rebuilt, Step;
    InvIsSound(s);
    RemountRebuilds(s);
    LeakLeavesDevice(s, op);
  }
}
