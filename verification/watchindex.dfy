/** The file watcher's two-way index of files and directories, and its debounce timers
    (internal/watch/watcher.go). Paths are root-relative; a directory may be the root. */
module WatchIndex {
  import opened Outcomes
  import opened Paths

  /** What a timer will report when it fires. */
  datatype Kind = Modified | Removed

  /** The index as one set of files. `dirs` are the directories that have, or have had, a file of
      their own; `pending` and `renames` are the timers, by path and by new path. */
  datatype Index = Index(files: set<Path>, dirs: set<seq<Name>>, pending: map<Path, Kind>, renames: map<Path, Path>)

  const EMPTY := Index({}, {}, map[], map[])

  /** What a path turns out to be when it is looked at: excluded, gone, a directory whose walk finds
      these files, or a file. */
  datatype Seen = Excluded | Vanished | ADirectory(walked: seq<Path>) | AFile

  datatype Emitted = Nothing | Changed(path: Path, kind: Kind) | Renamed(oldPath: Path, path: Path)

  // ---- The operations on the set ----

  function Tracked(ix: Index, f: Path): Index {
    ix.(files := ix.files + {f}, dirs := ix.dirs + {Dir(f)})
  }

  function TrackedAll(ix: Index, walked: seq<Path>): Index {
    if walked == [] then ix else Tracked(TrackedAll(ix, walked[..|walked| - 1]), walked[|walked| - 1])
  }

  function FilesIn(ix: Index, d: seq<Name>): set<Path> {
    set f | f in ix.files && Dir(f) == d
  }

  /** The files a removal reported for `p` is about: those directly in a tracked directory, or a
      tracked file. */
  function RemovedWith(ix: Index, p: Path): set<Path> {
    if p in ix.dirs then FilesIn(ix, p) else if p in ix.files then {p} else {}
  }

  /** `rels` lists each of `files` once, and nothing else. */
  ghost predicate Lists(rels: seq<Path>, files: set<Path>) {
    && (forall f :: f in rels <==> f in files)
    && forall i, j :: 0 <= i < j < |rels| ==> rels[i] != rels[j]
  }

  /** Exactly the listed files have got a removal timer. */
  ghost predicate OnlyThese(before: map<Path, Kind>, after: map<Path, Kind>, rels: seq<Path>) {
    forall f :: if f in rels then f in after && after[f] == Removed
                else (f in after <==> f in before) && (f in after ==> after[f] == before[f])
  }

  function WithRemovals(pending: map<Path, Kind>, files: set<Path>): map<Path, Kind> {
    pending + map f | f in files :: Removed
  }

  /** A removal reported for `p`: a tracked directory gives up its own files, a tracked file only gets
      a timer, anything else is ignored. */
  function RemovalSeen(ix: Index, p: Path): Index {
    if p in ix.dirs then
      ix.(files := ix.files - FilesIn(ix, p), dirs := ix.dirs - {p},
          pending := WithRemovals(ix.pending, FilesIn(ix, p)))
    else if p in ix.files then ix.(pending := ix.pending[p := Removed])
    else ix
  }

  function Moved(ix: Index, oldRel: Path, newRel: Path): Index {
    if oldRel in ix.files then
      ix.(files := ix.files - {oldRel} + {newRel}, dirs := ix.dirs + {Dir(newRel)})
    else ix
  }

  function FileSeen(ix: Index, p: Path, seen: Seen): Index {
    if seen.AFile? then Tracked(ix, p).(pending := ix.pending[p := Modified]) else ix
  }

  function Created(ix: Index, p: Path, seen: Seen): Index {
    if seen.ADirectory? then TrackedAll(ix, seen.walked) else FileSeen(ix, p, seen)
  }

  datatype Op =
    | Register(walked: seq<Path>)          // registerTree; the walk found these files
    | WriteSeen(path: Path, seen: Seen)    // handleWrite
    | CreateSeen(path: Path, seen: Seen)   // handleCreate
    | RemoveSeen(path: Path)               // handleRemove
    | RenameSeen(oldPath: Path, path: Path, oldExcluded: bool, seen: Seen)  // handleRename
    | FirePath(path: Path)                 // the timer of a path
    | FireRename(path: Path)               // the timer of a rename

  function After(ix: Index, op: Op): Index {
    match op
    case Register(walked) => TrackedAll(ix, walked)
    case WriteSeen(p, seen) => FileSeen(ix, p, seen)
    case CreateSeen(p, seen) => Created(ix, p, seen)
    case RemoveSeen(p) => RemovalSeen(ix, p)
    case RenameSeen(o, p, oldExcluded, seen) =>
      if oldExcluded then Created(ix, p, seen)
      else if seen.Excluded? then RemovalSeen(ix, o)
      else ix.(renames := ix.renames[p := o])
    case FirePath(p) =>
      if p !in ix.pending then ix
      else ix.(pending := ix.pending - {p}, files := if ix.pending[p].Removed? then ix.files - {p} else ix.files)
    case FireRename(p) => if p !in ix.renames then ix else Moved(ix.(renames := ix.renames - {p}), ix.renames[p], p)
  }

  /** What the timer of a path, or of a rename, reports when it fires. */
  function Reports(ix: Index, op: Op): Emitted {
    match op
    case FirePath(p) => if p in ix.pending then Changed(p, ix.pending[p]) else Nothing
    case FireRename(p) => if p in ix.renames then Renamed(ix.renames[p], p) else Nothing
    case _ => Nothing
  }

  // ---- The two maps the watcher keeps ----

  /** Each map is the inverse of the other, and a file is found under its parent. */
  ghost predicate Inverse(dirFiles: map<seq<Name>, set<Path>>, fileDir: map<Path, seq<Name>>) {
    && (forall d, f :: d in dirFiles && f in dirFiles[d] ==> f in fileDir && fileDir[f] == d)
    && (forall f :: f in fileDir ==>
          fileDir[f] == Dir(f) && fileDir[f] in dirFiles && f in dirFiles[fileDir[f]])
  }

  lemma InverseWith(dirFiles: map<seq<Name>, set<Path>>, fileDir: map<Path, seq<Name>>, f: Path)
    requires Inverse(dirFiles, fileDir)
    ensures var own := if Dir(f) in dirFiles then dirFiles[Dir(f)] else {};
      && Inverse(dirFiles[Dir(f) := own + {f}], fileDir[f := Dir(f)])
      && dirFiles[Dir(f) := own + {f}].Keys == dirFiles.Keys + {Dir(f)}
      && fileDir[f := Dir(f)].Keys == fileDir.Keys + {f}
  {
  }

  class Watcher {
    var dirFiles: map<seq<Name>, set<Path>>
    var fileDir: map<Path, seq<Name>>
    var pending: map<Path, Kind>
    var renames: map<Path, Path>

    ghost predicate Valid()
      reads this
    {
      Inverse(dirFiles, fileDir)
    }

    ghost function Value(): Index
      reads this
    {
      Index(fileDir.Keys, dirFiles.Keys, pending, renames)
    }

    constructor ()
      ensures Valid() && Value() == EMPTY
    {
      dirFiles, fileDir, pending, renames := map[], map[], map[], map[];
    }

    method Track(f: Path)
      requires Valid()
      modifies this`dirFiles, this`fileDir
      ensures Valid() && Value() == Tracked(old(Value()), f)
    {
      InverseWith(dirFiles, fileDir, f);
      ghost var own := if Dir(f) in dirFiles then dirFiles[Dir(f)] else {};
      var parent := Dir(f);
      if parent !in dirFiles {
        dirFiles := dirFiles[parent := {}];
      }
      dirFiles := dirFiles[parent := dirFiles[parent] + {f}];
      fileDir := fileDir[f := parent];
      assert dirFiles == old(dirFiles)[parent := own + {f}];
    }

    method RegisterTree(walked: seq<Path>)
      requires Valid()
      modifies this`dirFiles, this`fileDir
      ensures Valid() && Value() == After(old(Value()), Register(walked))
    {
      for i := 0 to |walked|
        invariant Valid() && Value() == TrackedAll(old(Value()), walked[..i])
      {
        assert walked[..i + 1][..i] == walked[..i];
        Track(walked[i]);
      }
      assert walked[..|walked|] == walked;
    }

    method HandleWrite(f: Path, seen: Seen)
      requires Valid()
      modifies this
      ensures Valid() && Value() == After(old(Value()), WriteSeen(f, seen))
    {
      if seen.Excluded? || seen.Vanished? || seen.ADirectory? {
        return;
      }
      Track(f);
      pending := pending[f := Modified];
    }

    /** Returns the files it reports at once: of a directory those directly in it, and no others. */
    method HandleCreate(p: Path, seen: Seen) returns (reported: seq<Path>)
      requires Valid()
      modifies this
      ensures Valid() && Value() == After(old(Value()), CreateSeen(p, seen))
      ensures forall f :: f in reported <==> seen.ADirectory? && f in FilesIn(Value(), p)
    {
      reported := [];
      if seen.Excluded? || seen.Vanished? {
        return;
      }
      if seen.ADirectory? {
        RegisterTree(seen.walked);
        if p in dirFiles {
          reported := ListFiles(dirFiles[p]);
        }
        return;
      }
      HandleWrite(p, seen);
    }

    /** Returns the removals it scheduled: each file of the directory once, and nothing else. */
    method HandleRemove(p: Path) returns (scheduled: seq<Path>)
      requires Valid()
      modifies this
      ensures Valid() && Value() == After(old(Value()), RemoveSeen(p))
      ensures Lists(scheduled, RemovedWith(old(Value()), p)) && OnlyThese(old(pending), pending, scheduled)
    {
      scheduled := [];
      if p in dirFiles {
        ghost var own := FilesIn(Value(), p);
        scheduled := DropDirectory(p);
        ScheduleRemovals(scheduled, own);
        assert Value() == After(old(Value()), RemoveSeen(p));
      } else if p in fileDir {
        pending := pending[p := Removed];
        scheduled := [p];
      }
    }

    /** Takes a directory and its own files out of the index, and lists them. */
    method DropDirectory(p: Path) returns (rels: seq<Path>)
      requires Valid() && p in dirFiles
      modifies this`dirFiles, this`fileDir
      ensures Valid() && Value() == old(Value()).(files := old(Value()).files - FilesIn(old(Value()), p),
                                                  dirs := old(Value()).dirs - {p})
      ensures Lists(rels, FilesIn(old(Value()), p))
    {
      rels := ListFiles(dirFiles[p]);
      dirFiles := dirFiles - {p};
      for i := 0 to |rels|
        invariant dirFiles == old(dirFiles) - {p} && fileDir == old(fileDir) - set f | f in rels[..i]
      {
        fileDir := fileDir - {rels[i]};
      }
      assert rels[..|rels|] == rels;
    }

    method ScheduleRemovals(rels: seq<Path>, ghost own: set<Path>)
      requires Lists(rels, own)
      modifies this`pending
      ensures pending == WithRemovals(old(pending), own)
    {
      for i := 0 to |rels|
        invariant pending.Keys == old(pending).Keys + set f | f in rels[..i]
        invariant forall f :: f in pending ==> pending[f] == if f in rels[..i] then Removed else old(pending)[f]
      {
        pending := pending[rels[i] := Removed];
      }
      assert rels[..|rels|] == rels;
    }

    method ListFiles(files: set<Path>) returns (rels: seq<Path>)
      ensures Lists(rels, files)
    {
      rels := [];
      var rest := files;
      while rest != {}
        invariant rest <= files && Lists(rels, files - rest)
        decreases |rest|
      {
        var f: Path :| f in rest;
        rest := rest - {f};
        rels := rels + [f];
      }
    }

    /** A move out of an excluded place is a creation, a move into one a removal. */
    method HandleRename(oldRel: Path, newRel: Path, oldExcluded: bool, seen: Seen)
      requires Valid()
      modifies this
      ensures Valid() && Value() == After(old(Value()), RenameSeen(oldRel, newRel, oldExcluded, seen))
    {
      if oldExcluded && seen.Excluded? {
        return;
      }
      if oldExcluded {
        var reported := HandleCreate(newRel, seen);
        return;
      }
      if seen.Excluded? {
        var scheduled := HandleRemove(oldRel);
        return;
      }
      renames := renames[newRel := oldRel];
    }

    method Forget(f: Path)
      requires Valid()
      modifies this`dirFiles, this`fileDir
      ensures Valid() && Value() == old(Value()).(files := old(Value()).files - {f})
    {
      if f in fileDir {
        var dir := fileDir[f];
        fileDir := fileDir - {f};
        if dir in dirFiles {
          dirFiles := dirFiles[dir := dirFiles[dir] - {f}];
        }
      }
    }

    method Rename(oldRel: Path, newRel: Path)
      requires Valid()
      modifies this`dirFiles, this`fileDir
      ensures Valid() && Value() == Moved(old(Value()), oldRel, newRel)
    {
      if oldRel !in fileDir {
        return;
      }
      Forget(oldRel);
      Track(newRel);
    }

    method Fire(f: Path) returns (e: Emitted)
      requires Valid()
      modifies this
      ensures Valid() && Value() == After(old(Value()), FirePath(f))
      ensures e == Reports(old(Value()), FirePath(f))
    {
      if f !in pending {
        return Nothing;
      }
      var kind := pending[f];
      pending := pending - {f};
      if kind.Removed? {
        Forget(f);
      }
      return Changed(f, kind);
    }

    method FireMove(newRel: Path) returns (e: Emitted)
      requires Valid()
      modifies this
      ensures Valid() && Value() == After(old(Value()), FireRename(newRel))
      ensures e == Reports(old(Value()), FireRename(newRel))
    {
      if newRel !in renames {
        return Nothing;
      }
      var oldRel := renames[newRel];
      renames := renames - {newRel};
      Rename(oldRel, newRel);
      return Renamed(oldRel, newRel);
    }
  }

  // ---- Whole runs ----

  function RunFrom(ix: Index, run: seq<Op>): Index {
    if run == [] then ix else After(RunFrom(ix, run[..|run| - 1]), run[|run| - 1])
  }

  /** The directory of every indexed file has an entry of its own. */
  predicate ParentsTracked(ix: Index) {
    forall f :: f in ix.files ==> Dir(f) in ix.dirs
  }

  /** A path looked at puts `f` into the index: a directory all files its walk finds, a file itself. */
  predicate SeenAdds(p: Path, seen: Seen, f: Path) {
    (seen.ADirectory? && f in seen.walked) || (seen.AFile? && p == f)
  }

  /** The operation puts `f` into the index. */
  predicate Adds(ix: Index, op: Op, f: Path) {
    match op
    case Register(walked) => f in walked
    case WriteSeen(p, seen) => seen.AFile? && p == f
    case CreateSeen(p, seen) => SeenAdds(p, seen, f)
    case RenameSeen(_, p, oldExcluded, seen) => oldExcluded && SeenAdds(p, seen, f)
    case FireRename(p) => p == f && p in ix.renames && ix.renames[p] in ix.files
    case _ => false
  }

  /** The operation takes `f` out. A directory's removal takes only the files directly in it. */
  predicate Takes(ix: Index, op: Op, f: Path) {
    match op
    case RemoveSeen(p) => Dir(f) == p
    case RenameSeen(o, _, oldExcluded, seen) => !oldExcluded && seen.Excluded? && Dir(f) == o
    case FirePath(p) => p == f && p in ix.pending && ix.pending[p].Removed?
    case FireRename(p) => p in ix.renames && ix.renames[p] == f && p != f
    case _ => false
  }

  lemma {:induction false} RegisterDecides(ix: Index, walked: seq<Path>, f: Path)
    requires ParentsTracked(ix)
    ensures ParentsTracked(TrackedAll(ix, walked))
    ensures f in TrackedAll(ix, walked).files <==> f in walked || f in ix.files
  {
    if walked != [] {
      RegisterDecides(ix, walked[..|walked| - 1], f);
      assert walked == walked[..|walked| - 1] + [walked[|walked| - 1]];
    }
  }

  lemma StepDecides(ix: Index, op: Op, f: Path)
    requires ParentsTracked(ix)
    ensures ParentsTracked(After(ix, op))
    ensures f in After(ix, op).files <==> Adds(ix, op, f) || (f in ix.files && !Takes(ix, op, f))
  {
    if op.Register? {
      RegisterDecides(ix, op.walked, f);
    } else if (op.CreateSeen? || op.RenameSeen?) && op.seen.ADirectory? {
      RegisterDecides(ix, op.seen.walked, f);
    }
  }

  /** The last operation that decided about a file: number `i` added it, and none took it since. */
  predicate AddedLast(run: seq<Op>, f: Path, i: nat)
    requires i < |run|
  {
    && Adds(RunFrom(EMPTY, run[..i]), run[i], f)
    && forall j :: i < j < |run| ==> !Takes(RunFrom(EMPTY, run[..j]), run[j], f)
  }

  lemma AddedBefore(run: seq<Op>, f: Path, i: nat)
    requires i < |run| - 1
    ensures var n := |run| - 1;
      AddedLast(run, f, i) <==> AddedLast(run[..n], f, i) && !Takes(RunFrom(EMPTY, run[..n]), run[n], f)
  {
    var n := |run| - 1;
    forall j | 0 <= j <= n ensures run[..n][..j] == run[..j] {
    }
    forall j | i < j < n ensures run[..n][j] == run[j] && run[..n][..j] == run[..j] {
    }
  }

  ghost predicate EverAddedLast(run: seq<Op>, f: Path) {
    exists i: nat :: i < |run| && AddedLast(run, f, i)
  }

  lemma OneMore(run: seq<Op>, f: Path)
    requires run != []
    ensures var n := |run| - 1;
      EverAddedLast(run, f) <==>
        Adds(RunFrom(EMPTY, run[..n]), run[n], f)
        || (EverAddedLast(run[..n], f) && !Takes(RunFrom(EMPTY, run[..n]), run[n], f))
  {
    var n := |run| - 1;
    forall i: nat | i < n ensures AddedLast(run, f, i) <==>
      AddedLast(run[..n], f, i) && !Takes(RunFrom(EMPTY, run[..n]), run[n], f)
    {
      AddedBefore(run, f, i);
    }
    assert AddedLast(run, f, n) <==> Adds(RunFrom(EMPTY, run[..n]), run[n], f);
    if EverAddedLast(run[..n], f) && !Takes(RunFrom(EMPTY, run[..n]), run[n], f) {
      var i: nat :| i < n && AddedLast(run[..n], f, i);
      assert AddedLast(run, f, i);
    }
  }

  /** A file is indexed exactly when the last operation that decided about it added it. */
  lemma {:induction false} LastWordDecides(run: seq<Op>, f: Path)
    ensures ParentsTracked(RunFrom(EMPTY, run))
    ensures f in RunFrom(EMPTY, run).files <==> EverAddedLast(run, f)
  {
    if run != [] {
      LastWordDecides(run[..|run| - 1], f);
      StepDecides(RunFrom(EMPTY, run[..|run| - 1]), run[|run| - 1], f);
      OneMore(run, f);
    }
  }

  /** Removing a tracked directory schedules the removal of a file, and stops indexing it, exactly when
      the file is directly in it: files further down stay indexed, with whatever timer they had. */
  lemma RemovalReachesOwnFilesOnly(ix: Index, d: Path, f: Path)
    requires ParentsTracked(ix) && d in ix.dirs && f in ix.files
    ensures var after := After(ix, RemoveSeen(d));
      && (Dir(f) == d <==> f !in after.files)
      && (Dir(f) == d ==> f in after.pending && after.pending[f] == Removed)
      && (Dir(f) != d ==> (f in after.pending <==> f in ix.pending)
                          && (f in ix.pending ==> after.pending[f] == ix.pending[f]))
  {
  }

  /** A directory without files of its own is not tracked: its removal is ignored, although files
      below it may be indexed. */
  lemma RemovalOfUntracked(ix: Index, d: Path, f: Path)
    requires d !in ix.dirs && d !in ix.files && f in ix.files && d < Dir(f)
    ensures After(ix, RemoveSeen(d)) == ix && f in After(ix, RemoveSeen(d)).files
  {
  }

  /** A removal timer outlives the registration of its file: when it fires, a file registered again in
      the meantime leaves the index, and its removal is reported. A write resets the timer. */
  lemma TimerOutlivesRegistration(ix: Index, f: Path, walked: seq<Path>)
    requires f in ix.pending && ix.pending[f].Removed? && f in walked
    ensures f !in After(After(ix, Register(walked)), FirePath(f)).files
    ensures f in After(After(After(ix, Register(walked)), WriteSeen(f, AFile)), FirePath(f)).files
  {
    PendingKept(ix, walked);
  }

  lemma {:induction false} PendingKept(ix: Index, walked: seq<Path>)
    ensures TrackedAll(ix, walked).pending == ix.pending
  {
    if walked != [] {
      PendingKept(ix, walked[..|walked| - 1]);
    }
  }

  /** A directory that appears with its contents: every file of the walk is indexed, but only the files
      directly in it are reported. */
  lemma CreationReportsOwnFilesOnly(ix: Index, d: Path, walked: seq<Path>, f: Path)
    requires ParentsTracked(ix) && f in walked
    ensures var after := After(ix, CreateSeen(d, ADirectory(walked)));
      f in after.files && (f in FilesIn(after, d) <==> Dir(f) == d) && after.pending == ix.pending
  {
    RegisterDecides(ix, walked, f);
    PendingKept(ix, walked);
  }

  // ---- Timers ----

  /** What an operation sets the timer of `f` to. */
  function Sets(ix: Index, op: Op, f: Path): Option<Kind> {
    if WritesAt(op, f) then Some(Modified) else if RemovesAt(ix, op, f) then Some(Removed) else None
  }

  predicate WritesAt(op: Op, f: Path) {
    match op
    case WriteSeen(p, seen) => p == f && seen.AFile?
    case CreateSeen(p, seen) => p == f && seen.AFile?
    case RenameSeen(_, p, oldExcluded, seen) => oldExcluded && p == f && seen.AFile?
    case _ => false
  }

  /** An indexed file goes with its own removal, or with that of the directory it is directly in; a path that
      is tracked as a directory is taken for one. */
  predicate RemovesAt(ix: Index, op: Op, f: Path) {
    match op
    case RemoveSeen(p) => f in ix.files && if p in ix.dirs then Dir(f) == p else f == p
    case RenameSeen(o, _, oldExcluded, seen) =>
      !oldExcluded && seen.Excluded? && f in ix.files && if o in ix.dirs then Dir(f) == o else f == o
    case _ => false
  }

  /** Exactly which timer a file has after an operation: the one the operation sets, or the one it had,
      unless that fired. */
  lemma TimersDecide(ix: Index, op: Op, f: Path)
    ensures f in After(ix, op).pending <==> Sets(ix, op, f).Some? || (f in ix.pending && op != FirePath(f))
    ensures f in After(ix, op).pending ==>
      After(ix, op).pending[f] == if Sets(ix, op, f).Some? then Sets(ix, op, f).value else ix.pending[f]
  {
    if op.Register? {
      PendingKept(ix, op.walked);
    } else if (op.CreateSeen? || op.RenameSeen?) && op.seen.ADirectory? {
      PendingKept(ix, op.seen.walked);
    }
  }

  /** What a removal schedules is what gets a removal timer. */
  lemma ScheduledIsTimed(ix: Index, p: Path, f: Path)
    ensures f in RemovedWith(ix, p) <==> RemovesAt(ix, RemoveSeen(p), f)
    ensures var after := After(ix, RemoveSeen(p)).pending;
      && (f in RemovedWith(ix, p) ==> f in after && after[f] == Removed)
      && (f !in RemovedWith(ix, p) ==> (f in after <==> f in ix.pending) && (f in after ==> after[f] == ix.pending[f]))
  {
    TimersDecide(ix, RemoveSeen(p), f);
  }

  /** Operation `i` set the timer of `f` to `kind`, and none has set it, or made it fire, since. */
  predicate SetLast(run: seq<Op>, f: Path, kind: Kind, i: nat)
    requires i < |run|
  {
    && Sets(RunFrom(EMPTY, run[..i]), run[i], f) == Some(kind)
    && forall j :: i < j < |run| ==> Sets(RunFrom(EMPTY, run[..j]), run[j], f).None? && run[j] != FirePath(f)
  }

  lemma SetBefore(run: seq<Op>, f: Path, kind: Kind, i: nat)
    requires i < |run| - 1
    ensures var n := |run| - 1;
      SetLast(run, f, kind, i) <==>
        SetLast(run[..n], f, kind, i) && Sets(RunFrom(EMPTY, run[..n]), run[n], f).None? && run[n] != FirePath(f)
  {
    var n := |run| - 1;
    forall j | 0 <= j <= n ensures run[..n][..j] == run[..j] {
    }
    forall j | i < j < n ensures run[..n][j] == run[j] && run[..n][..j] == run[..j] {
    }
  }

  ghost predicate EverSetLast(run: seq<Op>, f: Path, kind: Kind) {
    exists i: nat :: i < |run| && SetLast(run, f, kind, i)
  }

  lemma OneMoreSet(run: seq<Op>, f: Path, kind: Kind)
    requires run != []
    ensures var n := |run| - 1;
      var last := Sets(RunFrom(EMPTY, run[..n]), run[n], f);
      EverSetLast(run, f, kind) <==>
        last == Some(kind) || (EverSetLast(run[..n], f, kind) && last.None? && run[n] != FirePath(f))
  {
    var n := |run| - 1;
    forall i: nat | i < n ensures SetLast(run, f, kind, i) <==>
      SetLast(run[..n], f, kind, i) && Sets(RunFrom(EMPTY, run[..n]), run[n], f).None? && run[n] != FirePath(f)
    {
      SetBefore(run, f, kind, i);
    }
    assert SetLast(run, f, kind, n) <==> Sets(RunFrom(EMPTY, run[..n]), run[n], f) == Some(kind);
    if EverSetLast(run[..n], f, kind) && Sets(RunFrom(EMPTY, run[..n]), run[n], f).None? && run[n] != FirePath(f) {
      var i: nat :| i < n && SetLast(run[..n], f, kind, i);
      assert SetLast(run, f, kind, i);
    }
  }

  /** What a file's timer will report, after any operations, is what the last of them that set it says: a
      removal for a file that went, a modification for one that was written. */
  lemma {:induction false} LastWordIsReported(run: seq<Op>, f: Path, kind: Kind)
    ensures Reports(RunFrom(EMPTY, run), FirePath(f)) == Changed(f, kind) <==> EverSetLast(run, f, kind)
  {
    if run != [] {
      var n := |run| - 1;
      LastWordIsReported(run[..n], f, kind);
      TimersDecide(RunFrom(EMPTY, run[..n]), run[n], f);
      OneMoreSet(run, f, kind);
    }
  }

  /** A file that goes is reported as removed, once, and is then no longer indexed. */
  lemma RemovalIsReported(ix: Index, p: Path, f: Path)
    requires f in RemovedWith(ix, p)
    ensures var gone := After(ix, RemoveSeen(p));
      var fired := After(gone, FirePath(f));
      && Reports(gone, FirePath(f)) == Changed(f, Removed) && Reports(fired, FirePath(f)) == Nothing
      && f !in fired.files
  {
    TimersDecide(ix, RemoveSeen(p), f);
    TimersDecide(After(ix, RemoveSeen(p)), FirePath(f), f);
  }

  /** A move between two places that are not excluded is reported as that pair, once; a move seen later to the
      same place replaces it. */
  lemma MoveIsReported(ix: Index, o: Path, p: Path, seen: Seen, q: Path)
    requires !seen.Excluded?
    ensures var moved := After(ix, RenameSeen(o, p, false, seen));
      var fired := After(moved, FireRename(p));
      && Reports(moved, FireRename(p)) == Renamed(o, p) && Reports(fired, FireRename(p)) == Nothing
      && (q != p ==> Reports(moved, FireRename(q)) == Reports(ix, FireRename(q)) == Reports(fired, FireRename(q)))
      && (o in ix.files && o != p ==> o !in fired.files && p in fired.files)
  {
  }

  /** A directory that keeps its entry after its files went one by one hides a file that takes its name: the
      removal of that file is reported exactly when the path is not tracked as a directory. */
  lemma FileUnderDirectoryName(ix: Index, p: Path)
    requires p in ix.files
    ensures p in RemovedWith(ix, p) <==> p !in ix.dirs
  {
    assert Dir(p) != p;
  }

  /** The removal of the directory itself clears its name. */
  lemma RemovedDirectoryGivesUpItsName(ix: Index, d: Path)
    requires d in ix.dirs
    ensures var gone := After(ix, RemoveSeen(d));
      d !in gone.dirs && d in RemovedWith(After(gone, WriteSeen(d, AFile)), d)
  {
    assert Dir(d) != d;
  }

  /** And a directory keeps it while its files go one by one. */
  lemma EmptiedDirectoryKeepsItsName(ix: Index, f: Path)
    requires f in ix.files && ParentsTracked(ix) && f !in ix.dirs
    ensures Dir(f) in After(After(ix, RemoveSeen(f)), FirePath(f)).dirs
  {
  }
}
