/** One concrete input for each promise that the source does not keep: a few calls
    on a device as Format leaves it, and texts and sizes for the other parts. */
module Witnesses {
  import opened Geometry
  import opened Slots
  import opened Paths
  import opened DirTree
  import opened Store
  import opened Calls
  import opened CallProofs
  import opened Runs
  import opened Contents
  import opened Namespace
  import opened Persist
  import opened PersistCalls
  import opened Mount
  import opened Format
  import opened Crash
  import opened CrashShrink
  import opened Faults
  import opened Formatting
  import opened Shadows
  import ConstexprMath
  import opened Layouts
  import Ini
  import IniProofs
  import IniRoundTrip

  // ---------------------------------------------------------------- paths

  /** A name in the root directory. */
  function InRoot(name: string): string { "/" + name }

  lemma RootPath(name: string)
    requires name != "" && '/' !in name
    ensures !EndsWithSlash(InRoot(name)) && GetFileName(InRoot(name)) == name && GetDirName(InRoot(name)) == "/"
  {
    var p := InRoot(name);
    forall j | 0 < j < |p| ensures p[j] != '/' { assert p[j] == name[j - 1] && p[j] in name; }
    assert p[0] == '/' && LastSlash(p) == 0;
    assert p[..0] == "";
  }

  lemma LookupInRoot(s: State, name: string)
    requires name != "" && '/' !in name && "/" in s.tree.byPath
    ensures LookupDir(s, GetDirName(InRoot(name))) == Some(s.tree.byPath["/"])
    ensures var key := (s.tree.byPath["/"], name);
      LookupFile(s, InRoot(name)) == if |name| < MAX_FILE_NAME && key in s.byName then Some(s.byName[key]) else None
  {
    RootPath(name);
  }

  // ---------------------------------------------------------------- a formatted device

  function BlocksOf(dev: seq<byte>): nat
    requires DATA_START <= |dev|
  {
    (|dev| - DATA_START) / B % U32
  }

  /** What opening a device finds after formatting it. */
  function Formatted(dev: seq<byte>): State
    requires DATA_START <= |dev|
  {
    Fresh(MAX_FILE_NUM, MAX_FILE_NUM, MAX_BLOCK_SLOTS, BlocksOf(dev), dev)
  }

  lemma FormattedIsOpened(r: Raw)
    requires DATA_START <= |r.data| < U64
    ensures OpenDevice(FormatDevice(r).0) == Some(Formatted(r.data))
  {
    hide FormatDevice, OpenDevice, Inv, Conserved, SlotsOK, Persisted, Named, Fresh;
    FormatThenOpen(r);
  }

  lemma BlocksAreThere(dev: seq<byte>)
    requires DATA_START <= |dev|
    ensures DATA_START + BlocksOf(dev) * B <= |dev|
  { }

  // ---------------------------------------------------------------- a device with one empty file

  function WithRoot(s: State): State
  {
    Mkdir(s, "/").0
  }

  lemma RootIsMade(dev: seq<byte>)
    requires DATA_START <= |dev|
    ensures var s := Formatted(dev); var t := WithRoot(s);
      && Mkdir(s, "/").1 == Done
      && t == s.(tree := Tree(map[0 := "/"], map["/" := 0], map[0 := {}]), freeDhs := s.freeDhs[1..],
           inDir := map[0 := map[]], tab := t.tab)
  {
    hide WriteDir, FormatImage, Below;
    assert Formatted(dev).freeDhs[0] == 0;
  }

  /** mkdir "/" and create "/a". */
  function AFile(dev: seq<byte>): State
    requires DATA_START <= |dev|
  {
    Create(WithRoot(Formatted(dev)), InRoot("a")).0
  }

  const FILE_A: File := File(0, 0, "a", 0, None, [], 0, false)

  /** The file object: a mount numbers those that it finds by their slots. */
  const A: nat := MAX_FILE_NUM

  lemma AFileIsMade(dev: seq<byte>)
    requires DATA_START <= |dev|
    ensures var s := WithRoot(Formatted(dev)); var t := AFile(dev);
      && Create(s, InRoot("a")).1 == Done
      && t == s.(files := map[A := FILE_A], nextId := A + 1, freeFhs := s.freeFhs[1..], byFh := map[0 := A],
                 byName := map[(0, "a") := A], inDir := map[0 := map[0 := A]], tab := t.tab)
  {
    hide WriteFile, FormatImage, Below, LookupFile, WithRoot, LookupDir, GetFileName, GetDirName, EndsWithSlash;
    var s := WithRoot(Formatted(dev));
    RootIsMade(dev);
    RootPath("a");
    LookupInRoot(s, "a");
    assert s.freeFhs[0] == 0;
  }

  /** What the witnesses use of it. */
  lemma AFileHas(dev: seq<byte>)
    requires DATA_START <= |dev|
    ensures var s := AFile(dev);
      && OnlyA(s, A) && s.files[A] == FILE_A && s.num == BlocksOf(dev) && s.dev == dev && s.pool == Below(s.num)
      && s.freeFbs == Upto(MAX_BLOCK_SLOTS) && s.freeFhs == Upto(MAX_FILE_NUM)[1..]
      && s.open == map[] && |s.freeFds| == MAX_FD && NO_FD !in s.freeFds
  {
    hide AFile, WithRoot, Below, FormatImage;
    RootIsMade(dev);
    AFileIsMade(dev);
  }

  lemma FormattedIsGood(dev: seq<byte>)
    requires DATA_START <= |dev|
    ensures var m := Formatted(dev); Inv(m) && Conserved(m) && SlotsOK(m) && Persisted(m) && Named(m)
  {
    hide Inv, Conserved, SlotsOK, Persisted, Named, FormatImage, Fresh;
    BlocksAreThere(dev);
    FormatMounts(MAX_FILE_NUM, MAX_FILE_NUM, MAX_BLOCK_SLOTS, BlocksOf(dev), dev);
    MountedIsFresh(MAX_FILE_NUM, MAX_FILE_NUM, MAX_BLOCK_SLOTS, BlocksOf(dev), dev);
  }

  lemma AFileIsGood(dev: seq<byte>)
    requires DATA_START <= |dev|
    ensures var s := AFile(dev); Inv(s) && Conserved(s) && SlotsOK(s) && Persisted(s) && Named(s)
  {
    hide Inv, Conserved, SlotsOK, Persisted, Named, Mkdir, Create, Formatted;
    FormattedIsGood(dev);
    RootIsMade(dev);
    AFileIsMade(dev);
    Next(Formatted(dev), OpMkdir("/"));
    Next(WithRoot(Formatted(dev)), OpCreate(InRoot("a")));
  }

  /** One call that does its work. */
  lemma Next(s: State, op: Op)
    requires Inv(s) && Conserved(s) && SlotsOK(s) && Persisted(s) && Named(s) && Permitted(s, op)
    requires Step(s, op).1 != Leaked && !RenamedToNothing(s, op)
    ensures var t := Step(s, op).0; Inv(t) && Conserved(t) && SlotsOK(t) && Persisted(t) && Named(t)
  {
    hide Inv, Conserved, SlotsOK, Persisted, Named, Step, Permitted, RenamedToNothing;
    PermittedIsCallable(s, op);
    StepKeeps(s, op);
    StepTables(s, op);
    StepNamed(s, op);
  }

  lemma PermittedIsCallable(s: State, op: Op)
    requires Permitted(s, op)
    ensures Callable(s, op)
  { }

  // ---------------------------------------------------------------- a full file

  lemma {:induction false} BelowSize(n: nat)
    ensures |Below(n)| == n
  {
    if n > 0 { BelowSize(n - 1); }
  }

  const FULL: nat := (C - 1) * B + 1

  /** A file of (C - 1) * B + 1 bytes has its C blocks. One more byte would need no
      block, and there is one in the pool, but the extension is refused. */
  lemma FullFileCannotGrow(dev: seq<byte>)
    requires |dev| == DATA_START + 1001 * B
    ensures A in AFile(dev).files
    ensures var s := AFile(dev); var (t, out) := Truncate(s, A, FULL, Upto(C));
      && TruncatePick(s, A, FULL, Upto(C)) && out == Done
      && A in t.files && Needed(FULL, FULL + 1) == 0 && 1000 in t.pool
      && Truncate(t, A, FULL + 1, []) == (t, Refused)
  {
    hide WriteFile, WriteBlock, AFile, Below;
    AFileHas(dev);
    BelowSize(1001);
    assert Upto(MAX_BLOCK_SLOTS)[0] == 0;
  }

  // ---------------------------------------------------------------- renaming a file

  /** "/a" to "/b/": the call answers as if it had worked, and the device is lost. */
  lemma RenameLosesDevice(dev: seq<byte>)
    requires DATA_START <= |dev|
    ensures var s := AFile(dev);
      && Rename(s, "/a", "/b/").1 == Done && RenameAnswer(s, "/a", "/b/") == 0
      && MountImage(s.tab.disk, s.num, s.dev).Some?
      && MountImage(Rename(s, "/a", "/b/").0.tab.disk, s.num, s.dev).None?
  {
    hide Inv, Conserved, SlotsOK, Persisted, Named, AFile, LookupFile, LookupDir, Rename, RenameAnswer, MountImage,
         GetDirName;
    var s := AFile(dev);
    AFileIsGood(dev);
    LiveImage(s);
    MemoryIsDevice(s);
    AFileHas(dev);
    TargetInRoot(s);
    ARenames(s, A, "/b/");
    RenameToNothing(s, "/a", "/b/");
  }

  /** "/a" is file `f` and the only name, in a root directory in slot 0. */
  ghost predicate OnlyA(s: State, f: nat) {
    && f in s.files && s.files[f].dh == 0 && 0 in s.inDir
    && s.tree.byPath == map["/" := 0] && s.byName == map[(0, "a") := f]
  }

  /** It can be renamed to a path in the root directory that is not found. */
  lemma ARenames(s: State, f: nat, to: string)
    requires OnlyA(s, f) && |to| > 0 && LookupFile(s, to) == None && LookupDir(s, GetDirName(to)) == Some(0)
    ensures LookupFile(s, "/a") == Some(f)
    ensures Rename(s, "/a", to) == (MoveFile(s, f, 0, StoredName(GetFileName(to))), Done)
    ensures RenameAnswer(s, "/a", to) == 0
  {
    hide LookupFile, LookupDir, RenamedDir, GetDirName, GetFileName, StoredName, MoveFile;
    assert InRoot("a") == "/a";
    LookupInRoot(s, "a");
  }

  lemma TargetInRoot(s: State)
    requires "/" in s.tree.byPath
    ensures LookupFile(s, "/b/") == None && LookupDir(s, GetDirName("/b/")) == Some(s.tree.byPath["/"])
  {
    RootPath("b");
    assert "/b/"[..2] == InRoot("b");
  }

  function LongName(): string { seq(MAX_FILE_NAME, _ => 'x') }

  /** "/a" to a name of 64 characters: the call succeeds, and no path finds the file. */
  lemma RenameLosesFile(dev: seq<byte>)
    requires DATA_START <= |dev|
    ensures var s := AFile(dev); var t := Rename(s, "/a", InRoot(LongName())).0;
      && Rename(s, "/a", InRoot(LongName())).1 == Done && RenameAnswer(s, "/a", InRoot(LongName())) == 0
      && A in t.files && Inv(t) && forall p :: !FoundBy(t, p, A)
  {
    hide Inv, Conserved, SlotsOK, Persisted, Named, AFile, LookupFile, LookupDir, Rename, RenameAnswer, GetDirName,
         LongName, FoundBy;
    var s := AFile(dev);
    AFileIsGood(dev);
    LongNameIs();
    RootPath(LongName());
    AFileHas(dev);
    LookupInRoot(s, LongName());
    ARenames(s, A, InRoot(LongName()));
    RenamedIsFound(s, "/a", InRoot(LongName()));
    RenameKeeps(s, "/a", InRoot(LongName()));
    assert RenameIsSafe(s, "/a", InRoot(LongName())) by { LongIsFree(dev); }
  }

  lemma LongIsFree(dev: seq<byte>)
    requires DATA_START <= |dev|
    ensures RenameIsSafe(AFile(dev), "/a", InRoot(LongName()))
  {
    hide AFile, LookupDir, Rename, GetDirName, LongName;
    var s := AFile(dev);
    LongNameIs();
    RootPath(LongName());
    AFileHas(dev);
    LookupInRoot(s, LongName());
    ARenames(s, A, InRoot(LongName()));
  }

  lemma LongNameIs()
    ensures |LongName()| == MAX_FILE_NAME && '/' !in LongName()
  { }

  // ---------------------------------------------------------------- renaming a directory

  /** mkdir "/" and mkdir "/a". */
  function ADir(dev: seq<byte>): State
    requires DATA_START <= |dev|
  {
    Mkdir(WithRoot(Formatted(dev)), "/a").0
  }

  ghost predicate OnlyDirA(s: State) {
    && s.tree == Tree(map[0 := "/", 1 := "/a/"], map["/" := 0, "/a/" := 1], map[0 := {1}, 1 := {}])
    && s.byName == map[] && s.freeFhs != [] && s.inDir.Keys == {0, 1}
  }

  lemma ADirIsMade(dev: seq<byte>)
    requires DATA_START <= |dev|
    ensures Mkdir(WithRoot(Formatted(dev)), "/a").1 == Done && OnlyDirA(ADir(dev))
  {
    hide WriteDir, FormatImage, WithRoot, GetDirName, LookupFile, Below;
    var s := WithRoot(Formatted(dev));
    RootIsMade(dev);
    forall path: string | |path| > 0 ensures LookupFile(s, path) == None { NoFiles(s, path); }
    DirInRoot();
    assert AsDir("/a") == "/a/";
    assert s.freeDhs[0] == 1;
    assert KidsOf(s.tree, 0) + {1} == {1};
  }

  lemma DirInRoot()
    ensures GetDirName("/a") == "/" && GetDirName("/a/") == "/" && GetDirName("/a/b") == "/a/"
    ensures GetDirName("/a/b/") == "/a/" && GetDirName("/x/b/") == "/x/" && GetDirName("/x/b") == "/x/"
  {
    hide LastSlash, StripSlashes;
    RootPath("a");
    assert "/a/"[..2] == InRoot("a");
    BelowRoot('a');
    BelowRoot('x');
  }

  /** "/c/b" and "/c/b/" for a letter `c`. */
  lemma BelowRoot(c: char)
    requires c != '/'
    ensures GetDirName(['/', c, '/', 'b']) == ['/', c, '/'] && GetDirName(['/', c, '/', 'b', '/']) == ['/', c, '/']
  {
    var p := ['/', c, '/', 'b'];
    assert LastSlash(p) == 2;
    assert p[..2] == ['/', c] && ['/', c, '/', 'b', '/'][..4] == p;
    assert StripSlashes(['/', c]) == ['/', c];
  }

  lemma NoFiles(s: State, path: string)
    requires |path| > 0 && s.byName == map[]
    ensures LookupFile(s, path) == None
  {
    hide GetDirName, GetFileName;
  }

  lemma ADirIsGood(dev: seq<byte>)
    requires DATA_START <= |dev|
    ensures var s := ADir(dev); Inv(s) && Conserved(s) && SlotsOK(s) && Persisted(s) && Named(s)
  {
    hide Inv, Conserved, SlotsOK, Persisted, Named, Mkdir, Formatted, OnlyDirA;
    FormattedIsGood(dev);
    RootIsMade(dev);
    ADirIsMade(dev);
    Next(Formatted(dev), OpMkdir("/"));
    Next(WithRoot(Formatted(dev)), OpMkdir("/a"));
  }

  /** "/a" to "/a/b": the directory becomes its own ancestor, the indexes no longer
      describe a tree, the device cannot be mounted again, and the call answers -1. */
  lemma RenameIntoItself(dev: seq<byte>)
    requires DATA_START <= |dev|
    ensures var s := ADir(dev); var t := Rename(s, "/a", "/a/b").0;
      && Inv(s) && MountImage(s.tab.disk, s.num, s.dev).Some?
      && Rename(s, "/a", "/a/b").1 == Done && RenameAnswer(s, "/a", "/a/b") == -1
      && !Inv(t) && MountImage(t.tab.disk, s.num, s.dev).None?
  {
    hide Inv, Conserved, SlotsOK, Persisted, Named, ADir, Rename, RenameAnswer, MountImage, LookupFile, RenamedDir;
    var s := ADir(dev);
    ADirIsGood(dev);
    ADirIsMade(dev);
    LiveImage(s);
    MemoryIsDevice(s);
    DirMoves(s);
    RenameKeeps(s, "/a", "/a/b");
    DirRenameLosesDevice(s, "/a", "/a/b");
  }

  lemma DirMoves(s: State)
    requires OnlyDirA(s)
    ensures LookupFile(s, "/a") == None && RenamedDir(s, "/a", "/a/b") == Some(1)
    ensures Rename(s, "/a", "/a/b").1 == Done && RenameAnswer(s, "/a", "/a/b") == -1
    ensures !MoveIsSafe(s.tree, 1, AsDir("/a/b")) && !RenameIsSafe(s, "/a", "/a/b")
  {
    hide WriteDir, LookupFile, LookupDir, AskedDir, GetDirName, Move;
    DirInRoot();
    assert AsDir("/a/b") == "/a/b/";
    NoFiles(s, "/a");
    NoFiles(s, "/a/b");
    DirIsAsked(s);
  }

  lemma DirIsAsked(s: State)
    requires OnlyDirA(s)
    ensures AskedDir(s, "/a", "/a/b") == Some(1) && LookupDir(s, GetDirName("/a/b/")) == Some(1)
    ensures AskedDir(s, "/a", "/x/b") == Some(1) && LookupDir(s, GetDirName("/x/b/")) == None
  {
    hide LookupFile, GetDirName;
    DirInRoot();
    assert AsDir("/a") == "/a/" && AsDir("/a/b") == "/a/b/" && AsDir("/x/b") == "/x/b/";
    forall path: string | |path| > 0 ensures LookupFile(s, path) == None { NoFiles(s, path); }
  }

  /** "/a" to "/x/b", where there is no "/x": nothing is renamed, and the answer is 0. */
  lemma RenameIntoNowhere(dev: seq<byte>)
    requires DATA_START <= |dev|
    ensures var s := ADir(dev); Rename(s, "/a", "/x/b") == (s, Refused) && RenameAnswer(s, "/a", "/x/b") == 0
  {
    hide ADir, LookupFile, LookupDir, AskedDir, GetDirName, Move, WriteDir;
    var s := ADir(dev);
    ADirIsMade(dev);
    DirInRoot();
    assert AsDir("/x/b") == "/x/b/";
    NoFiles(s, "/a");
    NoFiles(s, "/x/b");
    DirIsAsked(s);
  }

  /** create "/a" where "/a" is a directory: the file is there and cannot be opened
      or unlinked. */
  lemma CreateOnDirectory(dev: seq<byte>)
    requires DATA_START <= |dev|
    ensures var s := ADir(dev); var t := Create(s, "/a").0;
      && NoShadow(s) && Create(s, "/a").1 == Done && !NoShadow(t)
      && LookupFile(t, "/a").Some? && Unlink(t, "/a").1 == Refused && Open(t, "/a", false).1 == Refused
  {
    hide Inv, Conserved, SlotsOK, Persisted, Named, ADir, Create, Unlink, Open, LookupFile, LookupDir, NoShadow,
         OnlyDirA, DirPath, PlaceOf;
    var s := ADir(dev);
    ADirIsGood(dev);
    ADirIsMade(dev);
    CreateOnA(s);
    CreateOverDirectory(s, "/a", false);
    StepShadow(s, OpCreate("/a"));
  }

  lemma CreateOnA(s: State)
    requires OnlyDirA(s)
    ensures Create(s, "/a").1 == Done && LookupDir(s, "/a").Some? && NoShadow(s) && DirPath(PlaceOf("/a")) in Dirs(s)
  {
    hide GetDirName, GetFileName, AddFile, LookupFile;
    assert InRoot("a") == "/a";
    LookupInRoot(s, "a");
    RootPath("a");
    assert AsDir("/a") == "/a/" && "/" + "a" + "/" == "/a/";
    forall p ensures !Shadowed(s, p) { }
  }

  // ---------------------------------------------------------------- growing the file

  /** truncate "/a" to a size within one block. */
  function Grown(dev: seq<byte>, size: nat): State
    requires DATA_START <= |dev| && A in AFile(dev).files
  {
    Truncate(AFile(dev), A, size, [0]).0
  }

  lemma EmptyGrows(s: State, f: nat, size: nat)
    requires f in s.files && s.files[f] == FILE_A && s.freeFbs != [] && s.freeFbs[0] == 0 && 0 in s.pool
    requires 0 < size <= B && DATA_START + B <= |s.dev|
    ensures var t := Truncate(s, f, size, [0]).0;
      && TruncatePick(s, f, size, [0]) && PickOK(s.pool, [0], Needed(0, size))
      && Extend(s, f, size, [0]) == (t, Done) && Truncate(s, f, size, [0]).1 == Done
      && t == s.(files := s.files[f := FILE_A.(size := size, fb := Some(0), ids := [0])], pool := s.pool - {0},
           freeFbs := s.freeFbs[1..], tab := t.tab)
  {
    hide WriteFile, WriteBlock, ExtendWrites;
    OneBlockIsEnough(s.pool, size);
    assert Elems([0]) == {0} && FILE_A.ids + [0] == [0];
  }

  lemma OneBlockIsEnough(pool: set<nat>, size: nat)
    requires 0 in pool && 0 < size <= B
    ensures Needed(0, size) == 1 && |pool| >= 1 && PickOK(pool, [0], 1)
  {
    assert |pool - {0}| == |pool| - 1;
  }

  lemma AGrows(dev: seq<byte>, size: nat)
    requires DATA_START <= |dev| && BlocksOf(dev) > 0 && 0 < size <= B
    ensures A in AFile(dev).files
    ensures var s := AFile(dev); var t := Grown(dev, size);
      && s.files[A] == FILE_A && s.num == BlocksOf(dev) && s.dev == dev
      && TruncatePick(s, A, size, [0]) && PickOK(s.pool, [0], Needed(0, size))
      && Extend(s, A, size, [0]) == (t, Done) && Truncate(s, A, size, [0]).1 == Done
      && t == s.(files := s.files[A := FILE_A.(size := size, fb := Some(0), ids := [0])], pool := s.pool - {0},
           freeFbs := s.freeFbs[1..], tab := t.tab)
  {
    hide AFile, Truncate, Extend, TruncatePick, PickOK, Needed;
    AFileHas(dev);
    BlocksAreThere(dev);
    FirstSlots();
    EmptyGrows(AFile(dev), A, size);
  }

  lemma FirstSlots()
    ensures var s := Upto(MAX_BLOCK_SLOTS); s != [] && s[0] == 0 && s[1..] != []
    ensures var s := Upto(MAX_FILE_NUM)[1..]; s != [] && s[0] == 1
  { }

  /** On a device full of sevens the byte of a file that grew from nothing is a seven. */
  lemma GapIsNotZero(dev: seq<byte>)
    requires DATA_START + B <= |dev| && BlocksOf(dev) > 0 && dev[DATA_START] == 7
    ensures A in AFile(dev).files
    ensures var t := Grown(dev, 1); A in t.files && ContentOf(t, A) == [7]
  {
    hide AFile, Grown, Extend, Truncate, TruncatePick, PickOK, Below;
    AGrows(dev, 1);
    OneByte(dev);
  }

  lemma OneByte(dev: seq<byte>)
    requires DATA_START + B <= |dev|
    ensures Bytes(dev, [0], 1) == [dev[DATA_START]]
  { }

  /** Power cut between the two slot writes of that growth: the file comes back
      with size 0 and a file block. */
  lemma CrashLeavesBlocks(dev: seq<byte>)
    requires DATA_START <= |dev| && BlocksOf(dev) > 0
    ensures var s := AFile(dev); A in s.files && s.files[A].size == 0
    ensures var s := AFile(dev); var again := MountImage(ExtendCut(s, A, 1, [0]).tab.disk, s.num, s.dev);
      again.Some? && Sound(again.value) && !Inv(again.value)
  {
    hide AFile, Grown, Extend, Inv, Conserved, Sound, NoneLost, SlotsOK, Persisted, Named, MountImage, ExtendCut,
         Truncate, TruncatePick, PickOK, Below;
    AGrows(dev, 1);
    AFileIsGood(dev);
    ConservedParts(AFile(dev));
    CrashInExtend(AFile(dev), A, 1, [0]);
  }

  // ---------------------------------------------------------------- a crash in a shrink

  /** truncate "/a" to two whole blocks. */
  function TwoBlocks(dev: seq<byte>): State
    requires DATA_START <= |dev| && A in AFile(dev).files
  {
    Truncate(AFile(dev), A, 2 * B, [0, 1]).0
  }

  lemma GrowsByTwo(s: State, f: nat)
    requires f in s.files && s.files[f] == FILE_A && s.freeFbs != [] && s.freeFbs[0] == 0
    requires 0 in s.pool && 1 in s.pool && DATA_START + 2 * B <= |s.dev|
    ensures var t := Truncate(s, f, 2 * B, [0, 1]).0;
      && TruncatePick(s, f, 2 * B, [0, 1]) && Truncate(s, f, 2 * B, [0, 1]).1 == Done
      && f in t.files && t.files[f] == FILE_A.(size := 2 * B, fb := Some(0), ids := [0, 1])
      && t.freeFbs == s.freeFbs[1..] && t.freeFhs == s.freeFhs && t.inDir == s.inDir
      && t.num == s.num && t.dev == s.dev
  {
    hide WriteFile, WriteBlock, ExtendWrites;
    assert |s.pool - {0}| == |s.pool| - 1 && |s.pool - {0} - {1}| == |s.pool| - 2;
    assert FILE_A.ids + [0, 1] == [0, 1];
  }

  lemma TwoBlocksAre(dev: seq<byte>)
    requires DATA_START <= |dev| && BlocksOf(dev) > 1
    ensures A in AFile(dev).files && A in TwoBlocks(dev).files
    ensures CanShrink(TwoBlocks(dev), A, B, 0)
  {
    hide Inv, Conserved, SlotsOK, Persisted, Named, AFile, Truncate, TruncatePick, Below;
    var s := AFile(dev);
    AFileIsGood(dev);
    AFileHas(dev);
    BlocksAreThere(dev);
    FirstSlots();
    GrowsByTwo(s, A);
    TruncateKeeps(s, A, 2 * B, [0, 1]);
    TruncateTables(s, A, 2 * B, [0, 1]);
    TruncateFileNames(s, A, 2 * B, [0, 1]);
    KeptNames(s, TwoBlocks(dev));
  }

  /** truncate "/a" to one block, and the power goes after the second write: the
      inherited block is listed twice, and no mount accepts the device again. */
  lemma CrashLosesDevice(dev: seq<byte>)
    requires DATA_START <= |dev| && BlocksOf(dev) > 1
    ensures A in AFile(dev).files && CanShrink(TwoBlocks(dev), A, B, 0)
    ensures var s := TwoBlocks(dev);
      MountImage(CutDisk(s, A, B, 0, 0), s.num, s.dev).Some? && MountImage(CutDisk(s, A, B, 0, 2), s.num, s.dev).None?
  {
    hide AFile, TwoBlocks, CanShrink, CutDisk, OldIsStale, MountImage;
    TwoBlocksAre(dev);
    CrashInShrink(TwoBlocks(dev), A, B, 0, 0);
    CrashInShrink(TwoBlocks(dev), A, B, 0, 2);
    NothingIsStale(TwoBlocks(dev), A, B, 0);
  }

  lemma NothingIsStale(s: State, f: nat, off: nat, tail: nat)
    requires CanShrink(s, f, off, tail)
    ensures !OldIsStale(s, f, off, tail, 0)
  {
    hide CanShrink;
  }

  // ---------------------------------------------------------------- a shrink that fails

  /** truncate "/a" to two bytes. */
  function TwoBytes(dev: seq<byte>): State
    requires DATA_START <= |dev| && A in AFile(dev).files
  {
    Grown(dev, 2)
  }

  lemma TwoBytesAre(dev: seq<byte>)
    requires DATA_START <= |dev| && BlocksOf(dev) == 1
    ensures A in AFile(dev).files
    ensures var s := TwoBytes(dev);
      && OnlyA(s, A) && s.files[A].size == 2 && s.files[A].fh == 0
      && s.freeFhs != [] && s.freeFhs[0] == 1 && s.freeFbs != [] && s.pool == {}
      && s.num == 1 && s.dev == dev
      && Inv(s) && SlotsOK(s) && Persisted(s) && Named(s)
  {
    hide Inv, Conserved, SlotsOK, Persisted, Named, AFile, Truncate, Extend, TruncatePick, PickOK, Needed;
    var s := AFile(dev);
    AFileHas(dev);
    AGrows(dev, 2);
    AFileIsGood(dev);
    FirstSlots();
    TruncateKeeps(s, A, 2, [0]);
    TruncateTables(s, A, 2, [0]);
    TruncateFileNames(s, A, 2, [0]);
    KeptNames(s, TwoBytes(dev));
    assert Below(1) - {0} == {};
  }

  lemma LeakFrom(s: State, f: nat)
    requires OnlyA(s, f) && s.files[f].size == 2 && s.freeFhs != [] && s.pool == {}
    ensures var t := ShrinkLeak(s, f, 1);
      && Truncate(s, f, 1, []) == (t, Leaked) && OnlyA(t, f) && t.files == s.files && t.tree == s.tree
      && t.tab.disk == s.tab.disk
  { }

  /** The rename of the file of slot 0 after the leak of slot 1. */
  lemma RenameAfterLeak(s: State, f: nat)
    requires OnlyA(s, f) && s.files[f].fh == 0 && s.freeFhs != [] && s.freeFhs[0] == 1
    requires Inv(s) && SlotsOK(s) && Persisted(s) && Named(s)
    ensures var t := ShrinkLeak(s, f, 1);
      && f in t.files && t.files[f].dh in t.inDir && 0 in t.inDir
      && (MountImage(MoveFile(t, f, 0, "b").tab.disk, s.num, s.dev).Some? <==> SealsAgree(s, f, 1))
  {
    hide Inv, SlotsOK, Persisted, Named, MountImage, SealsAgree, WriteFile, LeftHeir;
    var m := FileAt(s.tab, 0).(dh := 0, name := "b");
    SlotIsShown(s, f);
    LeakTables(s, f, 1);
    DirIsUsed(s, 0);
    FailedShrinkPoisonsPage(s, f, 1, 0, m);
  }

  lemma SlotIsShown(s: State, f: nat)
    requires SlotsOK(s) && f in s.files
    ensures FileShown(s.tab, s.files[f])
  {
    assert Shown(s, f);
  }

  /** On a device of one block, taking one of two bytes off finds no block for the
      rest and leaks the next file slot. The device is still as good as before; after a rename of "/a" it mounts only
      if two checksums happen to agree. */
  lemma FailedShrinkLosesDevice(dev: seq<byte>)
    requires |dev| == DATA_START + B
    ensures A in AFile(dev).files && A in TwoBytes(dev).files && TwoBytes(dev).freeFhs != []
    ensures var s := TwoBytes(dev); var t := Truncate(s, A, 1, []).0;
      && Truncate(s, A, 1, []).1 == Leaked && MountImage(t.tab.disk, s.num, s.dev).Some?
      && Rename(t, "/a", "/b").1 == Done && RenameAnswer(t, "/a", "/b") == 0
      && (MountImage(Rename(t, "/a", "/b").0.tab.disk, s.num, s.dev).Some? <==> SealsAgree(s, A, 1))
  {
    hide Inv, SlotsOK, Persisted, Named, AFile, Grown, Truncate, ShrinkLeak, MountImage, Rename, RenameAnswer,
         MoveFile, SealsAgree, LookupFile, LookupDir, GetDirName;
    TwoBytesAre(dev);
    var s := TwoBytes(dev);
    LeakFrom(s, A);
    var t := ShrinkLeak(s, A, 1);
    LiveImage(s);
    MemoryIsDevice(s);
    LookupInRoot(t, "b");
    assert InRoot("b") == "/b";
    RootPath("b");
    ARenames(t, A, "/b");
    RenameAfterLeak(s, A);
  }

  // ---------------------------------------------------------------- no descriptor left

  /** open "/a" `k` times. */
  function Opened(s: State, k: nat): State {
    if k == 0 then s else Open(Opened(s, k - 1), "/a", false).0
  }

  lemma OpensA(s: State, f: nat)
    requires OnlyA(s, f)
    ensures Open(s, "/a", false) == (AddOpen(s, f), Done) && OnlyA(AddOpen(s, f), f)
  {
    hide GetDirName;
    assert InRoot("a") == "/a";
    LookupInRoot(s, "a");
    assert AsDir("/a") == "/a/";
  }

  /** The descriptors are handed out one after the other. */
  lemma {:induction false} OpenedIs(s: State, f: nat, k: nat)
    requires OnlyA(s, f) && Inv(s) && s.open == map[] && k <= |s.freeFds| && NO_FD !in s.freeFds
    ensures var t := Opened(s, k);
      && OnlyA(t, f) && Inv(t) && t.freeFds == s.freeFds[k..] && NO_FD !in t.open
  {
    hide Inv, Open, AddOpen, OnlyA;
    if k > 0 {
      OpenedIs(s, f, k - 1);
      var t := Opened(s, k - 1);
      OpensA(t, f);
      OnlyAHas(t, f);
      FdLeftIff(t);
      AddOpenKeeps(t, f);
      NextIsTaken(t, f);
      assert s.freeFds[k - 1..][1..] == s.freeFds[k..];
    }
  }

  lemma OnlyAHas(s: State, f: nat)
    requires OnlyA(s, f)
    ensures f in s.files
  { }

  lemma NextIsTaken(s: State, f: nat)
    requires f in s.files && s.freeFds != [] && NO_FD !in s.freeFds && NO_FD !in s.open
    ensures AddOpen(s, f).freeFds == s.freeFds[1..] && NO_FD !in AddOpen(s, f).open
  { }

  /** After all descriptors are handed out, the next open answers -1 and opens the
      file all the same; the one after that also does, and then the link count of
      the file is more than its entries, so that it can never be deleted. */
  lemma OpensWithoutDescriptor(dev: seq<byte>)
    requires DATA_START <= |dev|
    ensures var s := AFile(dev); var t := Opened(s, MAX_FD); var u := Opened(s, MAX_FD + 1);
      && Inv(t) && Open(t, "/a", false) == (u, Done) && FdAnswer(NextFd(t)) == -1
      && Inv(u) && Open(u, "/a", false) == (Opened(s, MAX_FD + 2), Done) && FdAnswer(NextFd(u)) == -1
      && !Inv(Opened(s, MAX_FD + 2))
  {
    hide Inv, AFile, OnlyA, Open, AddOpen;
    var s := AFile(dev);
    AFileIsGood(dev);
    AFileHas(dev);
    OpenedIs(s, A, MAX_FD);
    var t := Opened(s, MAX_FD);
    OnlyAHas(t, A);
    LastOpens(t);
    OpensA(AddOpen(t, A), A);
  }

  lemma LastOpens(t: State)
    requires OnlyA(t, A) && Inv(t) && t.freeFds == [] && NO_FD !in t.open
    ensures var u := AddOpen(t, A);
      && Open(t, "/a", false) == (u, Done) && OnlyA(u, A) && A in u.files && NextFd(t) == NO_FD && NextFd(u) == NO_FD
      && Inv(u) && !Inv(AddOpen(u, A))
  {
    hide Inv;
    OpensA(t, A);
    AddOpenKeeps(t, A);
    AddOpenKeeps(AddOpen(t, A), A);
  }

  // ---------------------------------------------------------------- other parts

  lemma HeaderWithComment()
    ensures Ini.Feed(Ini.Start(), "[a]#c").err == Ini.OK
    ensures Ini.Feed(Ini.Start(), "[a]#c").sections == [Ini.Section("", "", "", []), Ini.Section("a", "", "c", [])]
  {
    hide Ini.Trim, Ini.IndexOf;
    IniProofs.TrimIdle("[a]#c");
    IniProofs.IndexAfter("[a]", '#', "c");
    assert "[a]" + ['#'] + "c" == "[a]#c";
    IniProofs.TrimIdle("[a]");
    IniProofs.TrimIdle("c");
    IniProofs.IndexAfter("[a", ']', "");
    assert "[a" + [']'] + "" == "[a]" && "[a]"[1..2] == "a";
    IniProofs.TrimIdle("a");
  }

  /** A section header with a comment on its right: it does not survive a save. */
  lemma RightCommentIsLost()
    ensures var r := Ini.Loaded("[a]#c"); var again := Ini.Loaded(Ini.Saved(r.sections));
      && r.err == Ini.OK
      && r.sections == [Ini.Section("", "", "", []), Ini.Section("a", "", "c", [])]
      && !(again.err == Ini.OK && again.sections == r.sections)
  {
    hide Ini.Saved, Ini.Feed, Ini.Loaded;
    var text := "[a]#c";
    OneLineText(text);
    HeaderWithComment();
    IniRoundTrip.RoundTripIff(text);
    assert Ini.Loaded(text).sections[1].right != "";
  }

  lemma OneLineText(text: string)
    requires text != "" && '\n' !in text
    ensures Ini.Loaded(text) == Ini.Feed(Ini.Start(), text)
  {
    IniProofs.IndexNone(text, '\n');
    var r := Ini.Start();
    assert Ini.LinesOf(text) == [text] && [text][1..] == [];
    assert Ini.FeedAll(r, [text]) == Ini.FeedAll(Ini.Feed(r, text), []);
  }

  /** Rounding five up to a multiple of minus three gives zero. */
  lemma NegativeUnit()
    ensures ConstexprMath.CeilTo(5, -3) == 0 && !ConstexprMath.IsCeil(5, 3, 0)
  { }

  /** A device that ends with its tables is formatted, its super block claims more
      than four million million data blocks, and it cannot be opened. */
  lemma FormattedAndLost(r: Raw)
    requires |r.data| == 675041280
    ensures FormatDevice(r).1 && FormatDevice(r).0.super.num == 4398046511103 && OpenDevice(FormatDevice(r).0) == None
  {
    hide FormatDevice, OpenDevice, FormatTables;
    FormattedButLost(r);
    FormattedSuper(r);
  }

  /** A formatted device of 100001 blocks may give out one that has no lock. */
  lemma BlockWithoutLock(dev: seq<byte>)
    requires |dev| == DATA_START + 100001 * B
    ensures BLOCK_LOCKS in Formatted(dev).pool
  { }
}
