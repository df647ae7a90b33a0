/** Events, their effect on a file tree (internal/syncfs/event.go), and the echo guard
    (internal/syncfs/echo.go). */
module Events {
  import opened Outcomes
  import opened Paths
  import opened Version
  import opened Ratchet

  /** IKA || IKB: the initiator's and the responder's identity keys. */
  type AssociatedData = (nat, nat)

  /** The Data field of a write: as read from disk, or encrypted. */
  datatype Payload = Clear(data: Content) | Cipher(sealed: Sealed<AssociatedData, Content>)

  type Manifest = map<Path, Digest>

  datatype Event =
    | Write(origin: MachineId, path: Path, hash: Digest, data: Payload, version: Vector, sequence: nat)
    | Remove(origin: MachineId, path: Path)
    | Rename(origin: MachineId, path: Path, oldPath: Path)
    | Bootstrap(origin: MachineId, initiatorDHPub: PublicKey, ephemeralPub: PublicKey, usedOTPID: nat)
    | BootstrapAck(origin: MachineId, ephemeralPub: PublicKey)
    | OpManifest(origin: MachineId, manifest: Manifest)
    | ReconcileDone(origin: MachineId)

  predicate IsMutation(ev: Event) {
    ev.Write? || ev.Remove? || ev.Rename?
  }

  // ---- Apply ----

  /** The regular files below a root. Directories exist as far as they hold files. */
  type Files = map<Path, Content>

  datatype ApplyError = NotADirectory | IsADirectory | NotFound | NotEmpty | UnknownOp

  predicate UnderFile(files: Files, p: Path) {
    exists q :: q in files && q < p
  }

  predicate IsDirectory(files: Files, p: Path) {
    exists q :: q in files && p < q
  }

  function ApplyWrite(files: Files, p: Path, data: Content): Result<Files, ApplyError> {
    if UnderFile(files, p) then Err(NotADirectory)
    else if IsDirectory(files, p) then Err(IsADirectory)
    else Ok(files[p := data])
  }

  function ApplyRemove(files: Files, p: Path): Files {
    map q | q in files && !(p <= q) :: files[q]
  }

  /** `p` with its leading `from` replaced by `to`. */
  function Moved(p: Path, from: Path, to: Path): Path
    requires from <= p
  {
    to + p[|from|..]
  }

  lemma MovedBack(p: Path, from: Path, to: Path)
    requires from <= p
    ensures to <= Moved(p, from, to) && Moved(Moved(p, from, to), to, from) == p
  {
    assert from + p[|from|..] == p;
    assert Moved(p, from, to)[|to|..] == p[|from|..];
  }

  function Targets(files: Files, from: Path, to: Path): set<Path> {
    set q | q in files && from <= q :: Moved(q, from, to)
  }

  /** The files of directory `from`, as they are found below `to`. */
  function MovedFiles(files: Files, from: Path, to: Path): Files {
    map r | r in Targets(files, from, to) && to <= r && Moved(r, to, from) in files :: files[Moved(r, to, from)]
  }

  function ApplyRename(files: Files, from: Path, to: Path): Result<Files, ApplyError> {
    if UnderFile(files, to) then Err(NotADirectory)
    else if from !in files && !IsDirectory(files, from) then Err(NotFound)
    else if from == to then Ok(files)
    else if from in files then
      if IsDirectory(files, to) then Err(IsADirectory)
      else Ok((map q | q in files && q != from :: files[q])[to := files[from]])
    else if from < to || to in files then Err(NotADirectory)
    else if IsDirectory(files, to) then Err(NotEmpty)
    else Ok((map q | q in files && !(from <= q) :: files[q]) + MovedFiles(files, from, to))
  }

  /** A file has nothing below it. */
  predicate IsTree(files: Files) {
    forall p, q :: p in files && q in files ==> !(p < q)
  }

  /** A rename to a free path is undone by the opposite rename: it moves everything at or below the old
      path, keeps each content, and touches nothing else. */
  lemma RenameBack(files: Files, from: Path, to: Path)
    requires IsTree(files) && to !in files && !IsDirectory(files, to) && ApplyRename(files, from, to).Ok?
    ensures IsTree(ApplyRename(files, from, to).value)
    ensures ApplyRename(ApplyRename(files, from, to).value, to, from) == Ok(files)
  {
    if from in files {
      FileBack(files, from, to);
    } else {
      DirectoryBack(files, from, to);
    }
  }

  lemma FileBack(files: Files, from: Path, to: Path)
    requires IsTree(files) && to !in files && !IsDirectory(files, to) && !UnderFile(files, to) && from in files
    ensures var moved := (map q | q in files && q != from :: files[q])[to := files[from]];
      ApplyRename(files, from, to) == Ok(moved) && IsTree(moved) && ApplyRename(moved, to, from) == Ok(files)
  {
    var moved := (map q | q in files && q != from :: files[q])[to := files[from]];
    assert (map q | q in moved && q != to :: moved[q])[from := moved[to]] == files;
    assert !UnderFile(moved, from) && !IsDirectory(moved, from);
  }

  function AfterMove(files: Files, from: Path, to: Path): Files {
    (map q | q in files && !(from <= q) :: files[q]) + MovedFiles(files, from, to)
  }

  /** Neither path is above the other, and the new one is free. */
  predicate Swappable(files: Files, from: Path, to: Path) {
    !(from <= to) && !(to <= from) && to !in files && !IsDirectory(files, to)
  }

  lemma FreeBelow(files: Files, to: Path, q: Path)
    requires to !in files && !IsDirectory(files, to) && to <= q
    ensures q !in files
  {
    assert |to| == |q| ==> to == q;
  }

  lemma Below(a: Path, b: Path, c: Path)
    requires a < b < c
    ensures a < c
  {
  }

  /** Where a file comes from that is found after a directory rename. */
  function Origin(q: Path, from: Path, to: Path): Path {
    if to <= q then Moved(q, to, from) else q
  }

  lemma AtMoved(files: Files, from: Path, to: Path, q: Path)
    requires Swappable(files, from, to)
    ensures var moved := AfterMove(files, from, to);
      && (q in moved <==> Origin(q, from, to) in files && (from <= q ==> to <= q))
      && (q in moved ==> moved[q] == files[Origin(q, from, to)])
  {
    if to <= q {
      FreeBelow(files, to, q);
      MovedBack(q, to, from);
      var o := Moved(q, to, from);
      assert o in files ==> Moved(o, from, to) in Targets(files, from, to);
    }
  }

  lemma MovedLess(p: Path, q: Path, from: Path, to: Path)
    requires from <= p < q
    ensures from <= q && Moved(p, from, to) < Moved(q, from, to)
  {
    assert Moved(q, from, to)[..|Moved(p, from, to)|] == Moved(p, from, to);
  }

  lemma Comparable(a: Path, b: Path, q: Path)
    requires a <= q && b <= q
    ensures a <= b || b <= a
  {
  }

  lemma OldPathIsFree(files: Files, from: Path, to: Path)
    requires Swappable(files, from, to)
    ensures Swappable(AfterMove(files, from, to), to, from)
  {
    forall q | q in AfterMove(files, from, to) ensures !(from <= q) {
      AtMoved(files, from, to, q);
      if from <= q {
        Comparable(from, to, q);
      }
    }
  }

  lemma MoveTwice(files: Files, from: Path, to: Path, q: Path)
    requires Swappable(files, from, to)
    ensures var back := AfterMove(AfterMove(files, from, to), to, from);
      (q in back <==> q in files) && (q in files ==> back[q] == files[q])
  {
    OldPathIsFree(files, from, to);
    AtMoved(AfterMove(files, from, to), to, from, q);
    if from <= q {
      MovedBack(q, from, to);
      AtMoved(files, from, to, Moved(q, from, to));
      if to <= q {
        Comparable(from, to, q);
      }
    } else {
      AtMoved(files, from, to, q);
      if to <= q {
        FreeBelow(files, to, q);
      }
    }
  }

  lemma MovedIsTree(files: Files, from: Path, to: Path, p: Path, q: Path)
    requires IsTree(files) && Swappable(files, from, to) && !UnderFile(files, to)
    requires p in AfterMove(files, from, to) && q in AfterMove(files, from, to)
    ensures !(p < q)
  {
    AtMoved(files, from, to, p);
    AtMoved(files, from, to, q);
    if p < q {
      if to <= p {
        MovedLess(p, q, to, from);
      } else if to <= q {
        Comparable(p, to, q);
      }
    }
  }

  lemma DirectoryBack(files: Files, from: Path, to: Path)
    requires IsTree(files) && to !in files && !IsDirectory(files, to) && !UnderFile(files, to)
    requires from !in files && IsDirectory(files, from) && !(from <= to)
    ensures var moved := AfterMove(files, from, to);
      ApplyRename(files, from, to) == Ok(moved) && IsTree(moved) && ApplyRename(moved, to, from) == Ok(files)
  {
    var q :| q in files && from < q;
    assert to <= from ==> to < q;
    var moved := AfterMove(files, from, to);
    forall a, b | a in moved && b in moved ensures !(a < b) {
      MovedIsTree(files, from, to, a, b);
    }
    OldPathIsFree(files, from, to);
    NewPathHolds(files, from, to, q);
    OldPathHolds(files, from, to, q);
    MoveUndone(files, from, to);
  }

  lemma NothingAbove(files: Files, from: Path, to: Path, below: Path, q: Path)
    requires IsTree(files) && Swappable(files, from, to) && below in files && from < below
    requires q in AfterMove(files, from, to)
    ensures !(q < from)
  {
    AtMoved(files, from, to, q);
    if q < from {
      Below(q, from, below);
    }
  }

  lemma NewPathHolds(files: Files, from: Path, to: Path, below: Path)
    requires Swappable(files, from, to) && below in files && from < below && from !in files
    ensures to !in AfterMove(files, from, to) && IsDirectory(AfterMove(files, from, to), to)
  {
    MovedBack(below, from, to);
    AtMoved(files, from, to, Moved(below, from, to));
    assert to < Moved(below, from, to);
    AtMoved(files, from, to, to);
    assert Moved(to, to, from) == from;
  }

  lemma OldPathHolds(files: Files, from: Path, to: Path, below: Path)
    requires IsTree(files) && Swappable(files, from, to) && below in files && from < below
    ensures !UnderFile(AfterMove(files, from, to), from)
  {
    forall q | q in AfterMove(files, from, to) ensures !(q < from) {
      NothingAbove(files, from, to, below, q);
    }
  }

  lemma MoveUndone(files: Files, from: Path, to: Path)
    requires Swappable(files, from, to)
    ensures AfterMove(AfterMove(files, from, to), to, from) == files
  {
    var back := AfterMove(AfterMove(files, from, to), to, from);
    forall q ensures (q in back <==> q in files) && (q in files ==> back[q] == files[q]) {
      MoveTwice(files, from, to, q);
    }
  }

  // ---- What each apply does to the tree ----

  /** A write is refused exactly when it would put a file above or below another. */
  lemma WriteKeepsTree(files: Files, p: Path, data: Content)
    requires IsTree(files)
    ensures ApplyWrite(files, p, data).Ok? <==> IsTree(files[p := data])
    ensures ApplyWrite(files, p, data).Ok? ==> ApplyWrite(files, p, data).value == files[p := data]
  {
    var after := files[p := data];
    if q :| q in files && (q < p || p < q) {
      assert q in after && p in after;
    }
  }

  /** A removal takes the path and everything below it, and nothing else. */
  lemma RemoveTakes(files: Files, p: Path, q: Path)
    ensures q in ApplyRemove(files, p) <==> q in files && q != p && !(p < q)
    ensures q in ApplyRemove(files, p) ==> ApplyRemove(files, p)[q] == files[q]
    ensures IsTree(files) ==> IsTree(ApplyRemove(files, p))
  {
    assert p <= q <==> p == q || p < q;
  }

  /** A rename takes the old path away with everything below it, whatever the new path held, and brings
      exactly that, each with its content, to the new path. */
  lemma RenameMoves(files: Files, from: Path, to: Path, q: Path)
    requires IsTree(files) && ApplyRename(files, from, to).Ok? && from != to
    ensures var after := ApplyRename(files, from, to).value;
      && (q in after <==> Origin(q, from, to) in files && (from <= q ==> to <= q))
      && (q in after ==> after[q] == files[Origin(q, from, to)])
  {
    if from in files {
      FileMoves(files, from, to, q);
    } else {
      var below :| below in files && from < below;
      assert to <= from ==> to < below;
      AtMoved(files, from, to, q);
    }
  }

  lemma FileMoves(files: Files, from: Path, to: Path, q: Path)
    requires IsTree(files) && from in files && !UnderFile(files, to) && !IsDirectory(files, to) && from != to
    ensures var after := (map p | p in files && p != from :: files[p])[to := files[from]];
      && (q in after <==> Origin(q, from, to) in files && (from <= q ==> to <= q))
      && (q in after ==> after[q] == files[Origin(q, from, to)])
  {
    if to <= q {
      MovedBack(q, to, from);
      if q != to {
        assert to < q && from < Moved(q, to, from);
      } else {
        assert Moved(to, to, from) == from;
      }
    } else if from < q {
      assert q !in files;
    }
  }

  /** A rename is refused exactly when the old path is not there, when a file stands above the new one, or
      when something in the new place cannot be replaced. */
  lemma RenameRefused(files: Files, from: Path, to: Path)
    requires IsTree(files) && from != to
    ensures ApplyRename(files, from, to).Ok? <==>
      && (from in files || IsDirectory(files, from)) && !UnderFile(files, to)
      && !IsDirectory(files, to) && (from in files || (to !in files && !(from < to)))
  {
  }

  lemma {:induction false} RenameKeepsTree(files: Files, from: Path, to: Path)
    requires IsTree(files) && ApplyRename(files, from, to).Ok?
    ensures IsTree(ApplyRename(files, from, to).value)
  {
    var after := ApplyRename(files, from, to).value;
    if from != to {
      forall a, b | a in after && b in after ensures !(a < b) {
        RenameMoves(files, from, to, a);
        RenameMoves(files, from, to, b);
        OriginsOrdered(files, from, to, a, b);
      }
    }
  }

  /** Where two paths would be one above the other after a rename, their origins were. */
  lemma OriginsOrdered(files: Files, from: Path, to: Path, a: Path, b: Path)
    requires IsTree(files) && !UnderFile(files, to) && !IsDirectory(files, to)
    requires (from in files || IsDirectory(files, from)) && from != to
    requires Origin(a, from, to) in files && (from <= a ==> to <= a)
    requires Origin(b, from, to) in files && (from <= b ==> to <= b)
    ensures !(a < b)
  {
    if a < b {
      if to <= a {
        MovedLess(a, b, to, from);
      } else if to <= b {
        Comparable(a, to, b);
      }
    }
  }

  /** ApplyConflict: the write lands beside its path, under the conflict name. */
  function ApplyConflict(files: Files, p: Path, origin: MachineId, data: Content, now: nat): Result<Files, ApplyError> {
    ApplyWrite(files, ConflictPath(p, origin, now), data)
  }

  /** Apply on a decrypted event; the data of an encrypted one never reaches it. */
  function Applied(files: Files, ev: Event): Result<Files, ApplyError> {
    match ev
    case Write(_, path, _, data, _, _) => if data.Clear? then ApplyWrite(files, path, data.data) else Err(UnknownOp)
    case Remove(_, path) => Ok(ApplyRemove(files, path))
    case Rename(_, path, oldPath) => ApplyRename(files, oldPath, path)
    case _ => Err(UnknownOp)
  }

  // ---- The echo guard ----

  /** What a path is expected to be seen as next; the removal sentinel is no content hash. */
  datatype Mark = Written(hash: Digest) | Removed

  datatype Guard = Guard(entries: map<Path, Mark>, renamed: map<Path, Path>)

  const EMPTY_GUARD := Guard(map[], map[])

  /** What a watcher reports of a local change (ChangeRescan reports none). */
  datatype Change = Modified(path: Path) | RemovedAt(path: Path) | RenamedTo(oldPath: Path, path: Path) | Rescan

  /** The guard after a clean apply of `ev`. */
  function Marked(g: Guard, ev: Event): Guard {
    match ev
    case Write(_, path, hash, _, _, _) => g.(entries := g.entries[path := Written(hash)])
    case Remove(_, path) => g.(entries := g.entries[path := Removed])
    case Rename(_, path, oldPath) => g.(renamed := g.renamed[path := oldPath])
    case _ => g
  }

  /** Whether a report is recognised as an echo, given the hash of the file it reports. */
  predicate IsEchoOf(g: Guard, c: Change, hash: Digest) {
    match c
    case Modified(path) => path in g.entries && g.entries[path] == Written(hash)
    case RemovedAt(path) => path in g.entries && g.entries[path] == Removed
    case RenamedTo(oldPath, path) => path in g.renamed && g.renamed[path] == oldPath
    case Rescan => false
  }

  /** The guard once the entry that matched is consumed. */
  function Forgotten(g: Guard, c: Change): Guard {
    match c
    case Modified(path) => g.(entries := g.entries - {path})
    case RemovedAt(path) => g.(entries := g.entries - {path})
    case RenamedTo(_, path) => g.(renamed := g.renamed - {path})
    case Rescan => g
  }

  /** What the guard recognises once `ev` has been applied: about that path exactly the change `ev` made, with
      the content it brought, and about any other path what it did before. A user's removal of a file that was
      just written is no echo, nor another content written over it, nor a rename from somewhere else. */
  lemma EchoIsExact(g: Guard, ev: Event, c: Change, hash: Digest)
    requires IsMutation(ev)
    ensures c.Modified? && c.path == ev.path && !ev.Rename? ==>
      (IsEchoOf(Marked(g, ev), c, hash) <==> ev.Write? && hash == ev.hash)
    ensures c.RemovedAt? && c.path == ev.path && !ev.Rename? ==> (IsEchoOf(Marked(g, ev), c, hash) <==> ev.Remove?)
    ensures c.RenamedTo? && c.path == ev.path && ev.Rename? ==>
      (IsEchoOf(Marked(g, ev), c, hash) <==> c.oldPath == ev.oldPath)
    ensures c.Rescan? || c.path != ev.path || (c.RenamedTo? <==> !ev.Rename?) ==>
      (IsEchoOf(Marked(g, ev), c, hash) <==> IsEchoOf(g, c, hash))
    ensures !IsEchoOf(g, Rescan, hash)
  {
  }

  /** An echo is recognised once, and recognising it takes nothing else from the guard. */
  lemma EchoIsOnce(g: Guard, c: Change, hash: Digest, d: Change, other: Digest)
    requires IsEchoOf(g, c, hash)
    ensures !IsEchoOf(Forgotten(g, c), c, hash)
    ensures !d.Rescan? && (d.path != c.path || (d.RenamedTo? <==> !c.RenamedTo?)) ==>
      (IsEchoOf(Forgotten(g, c), d, other) <==> IsEchoOf(g, d, other))
  {
  }

  class EchoGuard {
    var entries: map<Path, Mark>
    var renamed: map<Path, Path>

    constructor ()
      ensures State() == EMPTY_GUARD
    {
      entries, renamed := map[], map[];
    }

    function State(): Guard
      reads this
    {
      Guard(entries, renamed)
    }

    method MarkApplied(relPath: Path, hash: Digest)
      modifies this
      ensures State() == old(State()).(entries := old(entries)[relPath := Written(hash)])
    {
      entries := entries[relPath := Written(hash)];
    }

    method MarkRemoved(relPath: Path)
      modifies this
      ensures State() == old(State()).(entries := old(entries)[relPath := Removed])
    {
      entries := entries[relPath := Removed];
    }

    method MarkRenamed(oldRelPath: Path, newRelPath: Path)
      modifies this
      ensures State() == old(State()).(renamed := old(renamed)[newRelPath := oldRelPath])
    {
      renamed := renamed[newRelPath := oldRelPath];
    }

    method IsEcho(relPath: Path, hash: Digest) returns (echo: bool)
      modifies this
      ensures echo == IsEchoOf(old(State()), Modified(relPath), hash)
      ensures State() == if echo then Forgotten(old(State()), Modified(relPath)) else old(State())
    {
      if relPath !in entries || entries[relPath] != Written(hash) {
        return false;
      }
      entries := entries - {relPath};
      return true;
    }

    method IsEchoRemove(relPath: Path) returns (echo: bool)
      modifies this
      ensures forall hash :: echo == IsEchoOf(old(State()), RemovedAt(relPath), hash)
      ensures State() == if echo then Forgotten(old(State()), RemovedAt(relPath)) else old(State())
    {
      if relPath !in entries || entries[relPath] != Removed {
        return false;
      }
      entries := entries - {relPath};
      return true;
    }

    method IsEchoRename(oldRelPath: Path, newRelPath: Path) returns (echo: bool)
      modifies this
      ensures forall hash :: echo == IsEchoOf(old(State()), RenamedTo(oldRelPath, newRelPath), hash)
      ensures State() == if echo then Forgotten(old(State()), RenamedTo(oldRelPath, newRelPath)) else old(State())
    {
      if newRelPath !in renamed || renamed[newRelPath] != oldRelPath {
        return false;
      }
      renamed := renamed - {newRelPath};
      return true;
    }
  }
}
