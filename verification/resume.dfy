/** Resumable transfers: the registry of parked sandboxes (internal/daemon/resume.go) and a
    receiving session (internal/daemon/receiver.go). */
module Resume {
  import opened Outcomes
  import opened Paths
  import opened Archives

  const GRACE: nat := 5 * 60

  // ---- The registry ----

  datatype Key = Key(peer: string, dest: string)

  datatype Parking = Parking(sandboxDir: string, completed: Completed, expiresAt: int)

  predicate Expired(p: Parking, now: int) {
    now > p.expiresAt
  }

  class ResumeRegistry {
    var entries: map<Key, Parking>

    constructor ()
      ensures entries == map[]
    {
      entries := map[];
    }

    method Park(key: Key, sandboxDir: string, completed: Completed, grace: nat, now: int)
      modifies this
      ensures entries == old(entries)[key := Parking(sandboxDir, completed, now + grace)]
    {
      entries := entries[key := Parking(sandboxDir, completed, now + grace)];
    }

    /** Hands out the entry, unless it has expired, and forgets it either way. */
    method Claim(key: Key, now: int) returns (r: Option<Parking>)
      modifies this
      ensures r == Visible(old(entries), key, now) && entries == old(entries) - {key}
    {
      if key !in entries {
        assert entries - {key} == entries;
        return None;
      }
      var entry := entries[key];
      entries := entries - {key};
      return if now > entry.expiresAt then None else Some(entry);
    }

    /** The files the sender may skip; changes nothing. */
    method Peek(key: Key, now: int) returns (files: Completed)
      ensures files == Reported(Visible(entries, key, now))
    {
      if key !in entries || now > entries[key].expiresAt {
        return map[];
      }
      files := map[];
      var rest := entries[key].completed;
      while rest.Keys != {}
        invariant forall p :: p in entries[key].completed <==> p in files || p in rest
        invariant forall p :: p in files ==> files[p] == entries[key].completed[p]
        invariant forall p :: p in rest ==> rest[p] == entries[key].completed[p]
        decreases |rest|
      {
        var p: Path :| p in rest.Keys;
        files := files[p := rest[p]];
        rest := rest - {p};
      }
      assert files == entries[key].completed;
    }

    /** Drops every expired entry, and names the sandboxes that go with them. */
    method Sweep(now: int) returns (expired: set<string>)
      modifies this
      ensures entries == Unexpired(old(entries), now)
      ensures expired == set k | k in old(entries) && Expired(old(entries)[k], now) :: old(entries)[k].sandboxDir
    {
      expired := {};
      var keys := entries.Keys;
      ghost var all := entries;
      while keys != {}
        invariant keys <= all.Keys
        invariant entries == map k | k in all && (k in keys || !Expired(all[k], now)) :: all[k]
        invariant expired == set k | k in all && k !in keys && Expired(all[k], now) :: all[k].sandboxDir
        decreases |keys|
      {
        var key: Key :| key in keys;
        keys := keys - {key};
        if now > entries[key].expiresAt {
          expired := expired + {entries[key].sandboxDir};
          entries := entries - {key};
        }
      }
    }
  }

  /** What Peek and Claim see of an entry. */
  function Visible(entries: map<Key, Parking>, key: Key, now: int): Option<Parking> {
    if key in entries && !Expired(entries[key], now) then Some(entries[key]) else None
  }

  function Reported(p: Option<Parking>): Completed {
    if p.Some? then p.value.completed else map[]
  }

  function Unexpired(entries: map<Key, Parking>, now: int): map<Key, Parking> {
    map k | k in entries && !Expired(entries[k], now) :: entries[k]
  }

  // ---- A receiving session ----

  class Disk {
    var trees: map<string, Tree>

    constructor (trees: map<string, Tree>)
      ensures this.trees == trees
    {
      this.trees := trees;
    }
  }

  /** A parked sandbox, with what it holds. */
  datatype Parked = Parked(sandbox: Tree, completed: Completed, expiresAt: int)

  /** One transfer, between its attempts: what is parked for it, and what stands at its destination. */
  datatype Transfer = Transfer(parked: Option<Parked>, dest: Option<Tree>)

  /** How an attempt goes on the receiving side. Without a `cut` the whole stream arrives. */
  datatype Reception = Reception(claimAt: int, endAt: int, cut: Option<Cut>, diskFull: bool)

  function Find<K, V>(m: map<K, V>, k: K): Option<V> {
    if k in m then Some(m[k]) else None
  }

  /** A sandbox directory that does not exist is created when it is first used. */
  function Contents(trees: map<string, Tree>, dir: string): Tree {
    if dir in trees then trees[dir] else map[]
  }

  function TransferOf(entries: map<Key, Parking>, trees: map<string, Tree>, key: Key): Transfer {
    Transfer(match Find(entries, key)
             case None => None
             case Some(p) => Some(Parked(Contents(trees, p.sandboxDir), p.completed, p.expiresAt)),
             Find(trees, key.dest))
  }

  function Claimed(parked: Option<Parked>, now: int): Option<Parked> {
    if parked.Some? && now <= parked.value.expiresAt then parked else None
  }

  function Clipped(cut: Option<Cut>, archive: seq<Entry>): Option<Cut> {
    if cut.Some? && cut.value.k > |archive| then Some(Cut(|archive|, None)) else cut
  }

  /** The transfer after one attempt: committed, aborted on a full disk, or parked again. */
  function AfterReception(tr: Transfer, archive: seq<Entry>, r: Reception, links: bool): Transfer {
    var claimed := Claimed(tr.parked, r.claimAt);
    var box := if claimed.Some? then claimed.value.sandbox else map[];
    var done := if claimed.Some? then claimed.value.completed else map[];
    var x := ExtractedUpTo(box, done, archive, Clipped(r.cut, archive), links);
    if x.error.None? then Transfer(None, Some(x.tree))
    else if r.diskFull then Transfer(None, tr.dest)
    else Transfer(Some(Parked(x.tree, x.completed, r.endAt + GRACE)), tr.dest)
  }

  /** The directories a session may change. */
  function OwnDirs(entries: map<Key, Parking>, key: Key, freshDir: string): set<string> {
    {key.dest, freshDir} + if key in entries then {entries[key].sandboxDir} else {}
  }

  /** What each end of a session makes of the transfer, once the sandbox directory holds `tree` and the
      claimed entry is gone. */
  lemma SessionEnds(entries: map<Key, Parking>, trees: map<string, Tree>, key: Key, dir: string, tree: Tree, p: Parking)
    requires key !in entries && dir != key.dest && p.sandboxDir == dir
    ensures var held := trees[dir := tree];
      && TransferOf(entries, (held - {dir})[key.dest := tree], key) == Transfer(None, Some(tree))
      && TransferOf(entries, held - {dir}, key) == Transfer(None, Find(trees, key.dest))
      && TransferOf(entries[key := p], held, key)
         == Transfer(Some(Parked(tree, p.completed, p.expiresAt)), Find(trees, key.dest))
      && entries[key := p] - {key} == entries
  {
  }

  /** The trees agree on every directory but those of a session. */
  predicate SameElsewhere(t: map<string, Tree>, u: map<string, Tree>, own: set<string>) {
    t - own == u - own
  }

  lemma OthersKept(trees: map<string, Tree>, dest: string, dir: string, tree: Tree, own: set<string>)
    requires dest in own && dir in own
    ensures var held := trees[dir := tree];
      && SameElsewhere(held, trees, own) && SameElsewhere(held - {dir}, trees, own)
      && SameElsewhere((held - {dir})[dest := tree], trees, own)
  {
  }

  /** Claims a parked sandbox or starts a fresh one, extracts what arrives, and commits or parks. */
  method ReceiveSession(resumes: ResumeRegistry, disk: Disk, key: Key, freshDir: string, archive: seq<Entry>,
                        r: Reception, links: bool) returns (committed: bool)
    requires key in resumes.entries ==> resumes.entries[key].sandboxDir != key.dest
    requires freshDir !in disk.trees && freshDir != key.dest
    modifies resumes, disk
    ensures key in resumes.entries ==> resumes.entries[key].sandboxDir != key.dest
    ensures TransferOf(resumes.entries, disk.trees, key)
            == AfterReception(old(TransferOf(resumes.entries, disk.trees, key)), archive, r, links)
    ensures resumes.entries - {key} == old(resumes.entries) - {key}
    ensures SameElsewhere(disk.trees, old(disk.trees), old(OwnDirs(resumes.entries, key, freshDir)))
  {
    var claimed := resumes.Claim(key, r.claimAt);
    var dir := if claimed.Some? then claimed.value.sandboxDir else freshDir;
    var box := new Sandbox(Contents(disk.trees, dir), Reported(claimed));
    var error := box.ExtractArchive(archive, Clipped(r.cut, archive), links);
    SessionEnds(resumes.entries, disk.trees, key, dir, box.tree, Parking(dir, box.completed, r.endAt + GRACE));
    OthersKept(disk.trees, key.dest, dir, box.tree, OwnDirs(old(resumes.entries), key, freshDir));
    disk.trees := disk.trees[dir := box.tree];
    if error.None? {
      disk.trees := (disk.trees - {dir})[key.dest := box.tree];
    } else if r.diskFull {
      disk.trees := disk.trees - {dir};
    } else {
      resumes.Park(key, dir, box.completed, GRACE, r.endAt);
    }
    committed := error.None?;
  }

  // ---- Any number of attempts ----

  /** One attempt. The sender asks what it may skip at `peekAt`; `claimFirst` says that the receiving
      session had already claimed the sandbox. */
  datatype Attempt = Attempt(peekAt: int, claimFirst: bool, reception: Reception)

  datatype Step = Try(attempt: Attempt) | SweepAt(now: int)

  function SkipOf(tr: Transfer, a: Attempt): Completed {
    if a.claimFirst then map[]
    else
      var seen := Claimed(tr.parked, a.peekAt);
      if seen.Some? then seen.value.completed else map[]
  }

  function After(tr: Transfer, source: seq<Entry>, step: Step, links: bool): Transfer {
    match step
    case Try(a) => AfterReception(tr, Archive(source, SkipOf(tr, a)), a.reception, links)
    case SweepAt(now) => if tr.parked.Some? && now > tr.parked.value.expiresAt then tr.(parked := None) else tr
  }

  function RunFrom(tr: Transfer, source: seq<Entry>, run: seq<Step>, links: bool): Transfer {
    if run == [] then tr
    else After(RunFrom(tr, source, run[..|run| - 1], links), source, run[|run| - 1], links)
  }

  /** The session claims the entry that was reported to the sender: Peek comes first, and the entry
      does not expire in between. */
  predicate Agrees(tr: Transfer, a: Attempt) {
    !a.claimFirst && Claimed(tr.parked, a.peekAt) == Claimed(tr.parked, a.reception.claimAt)
  }

  predicate AllAgree(tr: Transfer, source: seq<Entry>, run: seq<Step>, links: bool) {
    forall i :: 0 <= i < |run| && run[i].Try? ==> Agrees(RunFrom(tr, source, run[..i], links), run[i].attempt)
  }

  /** What one clean transfer commits. */
  function CleanTransfer(source: seq<Entry>, links: bool): Tree {
    Extracted(map[], map[], source, |source|, links).tree
  }

  ghost predicate ParkedInv(parked: Option<Parked>, source: seq<Entry>, links: bool) {
    parked.Some? ==>
      Inside(parked.value.sandbox, source, links) && Kept(parked.value.sandbox, parked.value.completed, source)
  }

  lemma CleanIsTree(source: seq<Entry>, links: bool)
    requires WellFormed(source)
    ensures IsTree(CleanTransfer(source, links), source, links)
    ensures Extracted(map[], map[], source, |source|, links).error.None?
  {
    WholeEntries(map[], map[], source, |source|, links, source);
    assert source[..|source|] == source;
    forall e | e in source ensures InPlace(CleanTransfer(source, links), e, links) {
      WholeEntriesInPlace(map[], map[], source, |source|, links, source, e);
    }
  }

  lemma NextIgnoresCompleted(r1: Extraction, r2: Extraction, e: Entry, links: bool)
    requires r1.tree == r2.tree && r1.error == r2.error
    ensures ExtractNext(r1, e, links).tree == ExtractNext(r2, e, links).tree
    ensures ExtractNext(r1, e, links).error == ExtractNext(r2, e, links).error
  {
  }

  lemma {:induction false} CompletedIsOnlyNoted(t: Tree, c1: Completed, c2: Completed, archive: seq<Entry>, k: nat,
                                                links: bool)
    requires k <= |archive|
    ensures Extracted(t, c1, archive, k, links).tree == Extracted(t, c2, archive, k, links).tree
    ensures Extracted(t, c1, archive, k, links).error == Extracted(t, c2, archive, k, links).error
  {
    if k > 0 {
      CompletedIsOnlyNoted(t, c1, c2, archive, k - 1, links);
      NextIgnoresCompleted(Extracted(t, c1, archive, k - 1, links), Extracted(t, c2, archive, k - 1, links),
                           archive[k - 1], links);
    }
  }

  predicate SkippedAreWhole(box: Tree, source: seq<Entry>, skip: Completed, links: bool) {
    forall e :: e in source && Skips(skip, e) ==> InPlace(box, e, links)
  }

  /** A complete stream into any sandbox of the tree, whatever the sender skipped, gives the tree of
      a clean transfer exactly when every skipped file is whole in the sandbox. */
  lemma CompleteIffSkippedWhole(box: Tree, done: Completed, source: seq<Entry>, skip: Completed, links: bool)
    requires WellFormed(source) && Inside(box, source, links)
    ensures var archive := Archive(source, skip);
      var x := Extracted(box, done, archive, |archive|, links);
      && x.error.None?
      && (x.tree == CleanTransfer(source, links) <==> SkippedAreWhole(box, source, skip, links))
  {
    var archive := Archive(source, skip);
    CompletedIsOnlyNoted(box, done, map[], archive, |archive|, links);
    var t := Extracted(box, map[], archive, |archive|, links).tree;
    assert archive[..|archive|] == archive;
    forall e ensures e in archive <==> e in source && !Skips(skip, e) {
      ArchiveHas(source, skip, e);
    }
    WholeEntries(box, map[], archive, |archive|, links, source);
    forall e | e in source
      ensures InPlace(t, e, links) <==> !Skips(skip, e) || InPlace(box, e, links)
    {
      WholeEntriesInPlace(box, map[], archive, |archive|, links, source, e);
    }
    CleanIsTree(source, links);
    if SkippedAreWhole(box, source, skip, links) {
      TreeUnique(t, CleanTransfer(source, links), source, links);
    }
  }

  lemma KeptAreWhole(box: Tree, done: Completed, source: seq<Entry>, links: bool, e: Entry)
    requires DistinctPaths(source) && Kept(box, done, source) && e in source && Skips(done, e)
    ensures InPlace(box, e, links)
  {
    KeptIsFile(box, done, source, e);
  }

  /** A cut attempt that skips what the sandbox holds leaves it sound. */
  lemma CutKeeps(box: Tree, done: Completed, source: seq<Entry>, cut: Cut, links: bool)
    requires WellFormed(source) && Inside(box, source, links) && Kept(box, done, source)
    requires cut.k <= |Archive(source, done)|
    ensures var x := ExtractedUpTo(box, done, Archive(source, done), Some(cut), links);
      x.error.Some? && Inside(x.tree, source, links) && Kept(x.tree, x.completed, source)
  {
    var archive := Archive(source, done);
    var x := Extracted(box, done, archive, cut.k, links);
    ArchiveDistinct(source, done);
    forall e | e in archive ensures e in source {
      ArchiveHas(source, done, e);
    }
    WholeEntries(box, done, archive, cut.k, links, source);
    if cut.k < |archive| && archive[cut.k].path in x.completed {
      var e := archive[cut.k];
      ArchiveHas(source, done, e);
      assert e in archive;
      if e.path in done {
        KeptIsFile(box, done, source, e);
      } else {
        NotedPaths(box, done, archive, cut.k, links, e.path);
      }
      assert false;
    }
    BrokenKeeps(x, archive, cut, links, source);
  }

  lemma AttemptInv(tr: Transfer, source: seq<Entry>, a: Attempt, links: bool)
    requires WellFormed(source) && ParkedInv(tr.parked, source, links) && Agrees(tr, a)
    ensures ParkedInv(After(tr, source, Try(a), links).parked, source, links)
    ensures a.reception.cut.None? ==>
      After(tr, source, Try(a), links) == Transfer(None, Some(CleanTransfer(source, links)))
  {
    var claimed := Claimed(tr.parked, a.reception.claimAt);
    var box := if claimed.Some? then claimed.value.sandbox else map[];
    var done := if claimed.Some? then claimed.value.completed else map[];
    var cut := Clipped(a.reception.cut, Archive(source, done));
    if cut.Some? {
      CutKeeps(box, done, source, cut.value, links);
    } else {
      CompleteIffSkippedWhole(box, done, source, done, links);
      forall e | e in source && Skips(done, e) ensures InPlace(box, e, links) {
        KeptAreWhole(box, done, source, links, e);
      }
    }
  }

  lemma {:induction false} RunInv(tr: Transfer, source: seq<Entry>, run: seq<Step>, links: bool)
    requires WellFormed(source) && ParkedInv(tr.parked, source, links) && AllAgree(tr, source, run, links)
    ensures ParkedInv(RunFrom(tr, source, run, links).parked, source, links)
  {
    if run != [] {
      var front, last := run[..|run| - 1], run[|run| - 1];
      forall i | 0 <= i < |front| && front[i].Try?
        ensures Agrees(RunFrom(tr, source, front[..i], links), front[i].attempt)
      {
        assert front[..i] == run[..i];
      }
      RunInv(tr, source, front, links);
      if last.Try? {
        AttemptInv(RunFrom(tr, source, front, links), source, last.attempt, links);
      }
    }
  }

  /** Any number of attempts, each cut anywhere, aborted on a full disk or swept, followed by one that
      completes, commits exactly what one clean transfer commits. */
  lemma ResumeEqualsCleanTransfer(source: seq<Entry>, dest: Option<Tree>, run: seq<Step>, last: Attempt, links: bool)
    requires WellFormed(source) && AllAgree(Transfer(None, dest), source, run + [Try(last)], links)
    requires last.reception.cut.None?
    ensures RunFrom(Transfer(None, dest), source, run + [Try(last)], links)
            == Transfer(None, Some(CleanTransfer(source, links)))
    ensures IsTree(CleanTransfer(source, links), source, links)
  {
    var whole := run + [Try(last)];
    assert whole[..|run|] == run;
    forall i | 0 <= i < |run| && run[i].Try?
      ensures Agrees(RunFrom(Transfer(None, dest), source, run[..i], links), run[i].attempt)
    {
      assert whole[..i] == run[..i] && whole[i] == run[i];
    }
    RunInv(Transfer(None, dest), source, run, links);
    assert Agrees(RunFrom(Transfer(None, dest), source, whole[..|run|], links), whole[|run|].attempt);
    AttemptInv(RunFrom(Transfer(None, dest), source, run, links), source, last, links);
    CleanIsTree(source, links);
  }

  /** Until an attempt completes, the destination is as it was. */
  lemma {:induction false} DestUntouched(tr: Transfer, source: seq<Entry>, run: seq<Step>, links: bool)
    requires forall i :: 0 <= i < |run| && run[i].Try? ==> run[i].attempt.reception.cut.Some?
    ensures RunFrom(tr, source, run, links).dest == tr.dest
  {
    if run != [] {
      DestUntouched(tr, source, run[..|run| - 1], links);
    }
  }

  // ---- How long a sandbox can be resumed, and what that spares ----

  /** A cut attempt that did not fill the disk parks its sandbox for five minutes from its end: until then, and
      no longer, it can be claimed. */
  lemma ParkedForGrace(tr: Transfer, source: seq<Entry>, a: Attempt, links: bool)
    requires WellFormed(source) && ParkedInv(tr.parked, source, links) && Agrees(tr, a)
    requires a.reception.cut.Some? && !a.reception.diskFull
    ensures var parked := After(tr, source, Try(a), links).parked;
      && parked.Some?
      && forall now: int :: Claimed(parked, now) == if now <= a.reception.endAt + 5 * 60 then parked else None
  {
    var claimed := Claimed(tr.parked, a.reception.claimAt);
    var box := if claimed.Some? then claimed.value.sandbox else map[];
    var done := if claimed.Some? then claimed.value.completed else map[];
    CutKeeps(box, done, source, Clipped(a.reception.cut, Archive(source, done)).value, links);
  }

  /** On a full disk nothing is kept. */
  lemma FullDiskKeepsNothing(tr: Transfer, source: seq<Entry>, a: Attempt, links: bool)
    requires WellFormed(source) && ParkedInv(tr.parked, source, links) && Agrees(tr, a)
    requires a.reception.cut.Some? && a.reception.diskFull
    ensures After(tr, source, Try(a), links) == Transfer(None, tr.dest)
  {
    var claimed := Claimed(tr.parked, a.reception.claimAt);
    var box := if claimed.Some? then claimed.value.sandbox else map[];
    var done := if claimed.Some? then claimed.value.completed else map[];
    CutKeeps(box, done, source, Clipped(a.reception.cut, Archive(source, done)).value, links);
  }

  /** Sweeping changes nothing that could still be claimed, and leaves nothing that could not. */
  lemma SweepIsInvisible(tr: Transfer, source: seq<Entry>, now: int, links: bool, later: int)
    requires now <= later
    ensures var after := After(tr, source, SweepAt(now), links);
      && after.dest == tr.dest && Claimed(after.parked, later) == Claimed(tr.parked, later)
      && (after.parked.Some? <==> Claimed(tr.parked, now).Some?)
  {
  }

  /** What the registry shows of an entry is what a session can claim. */
  lemma VisibleIsClaimable(entries: map<Key, Parking>, trees: map<string, Tree>, key: Key, now: int)
    ensures var claimed := Claimed(TransferOf(entries, trees, key).parked, now);
      && (Visible(entries, key, now).Some? <==> claimed.Some?)
      && (claimed.Some? ==> claimed.value.completed == Reported(Visible(entries, key, now))
                            && claimed.value.sandbox == Contents(trees, Visible(entries, key, now).value.sandboxDir))
      && (claimed.None? ==> Reported(Visible(entries, key, now)) == map[])
  {
  }

  /** Every file extracted whole is noted with its hash. */
  lemma {:induction false} WholeIsNoted(t: Tree, done: Completed, archive: seq<Entry>, k: nat, links: bool, i: nat)
    requires i < k <= |archive| && DistinctPaths(archive) && archive[i].FileEntry?
    requires Extracted(t, done, archive, k, links).error.None?
    ensures Skips(Extracted(t, done, archive, k, links).completed, archive[i])
  {
    if i < k - 1 {
      WholeIsNoted(t, done, archive, k - 1, links, i);
    }
  }

  /** And what was noted before stays, unless its path is sent again. */
  lemma {:induction false} NotedStays(t: Tree, done: Completed, archive: seq<Entry>, k: nat, links: bool, e: Entry)
    requires k <= |archive| && Skips(done, e) && forall i :: 0 <= i < k ==> archive[i].path != e.path
    ensures Skips(Extracted(t, done, archive, k, links).completed, e)
  {
    if k > 0 {
      NotedStays(t, done, archive, k - 1, links, e);
    }
  }

  /** The entry has come whole in this attempt, or was noted before it. */
  predicate HasCome(done: Completed, archive: seq<Entry>, k: nat, e: Entry)
    requires k <= |archive|
  {
    e.FileEntry? && (Skips(done, e) || e in archive[..k])
  }

  /** A skipped file's path is not in the archive. */
  lemma SkippedPathIsNotSent(source: seq<Entry>, done: Completed, e: Entry, i: nat)
    requires DistinctPaths(source) && e in source && Skips(done, e) && i < |Archive(source, done)|
    ensures Archive(source, done)[i].path != e.path
  {
    var d := Archive(source, done)[i];
    assert d in Archive(source, done);
    ArchiveHas(source, done, d);
    if d.path == e.path {
      SamePathSameEntry(source, d, e);
    }
  }

  lemma ArchiveFits(box: Tree, done: Completed, source: seq<Entry>, k: nat, links: bool)
    requires WellFormed(source) && Inside(box, source, links) && Kept(box, done, source)
    requires k <= |Archive(source, done)|
    ensures Extracted(box, done, Archive(source, done), k, links).error.None? && DistinctPaths(Archive(source, done))
  {
    ArchiveDistinct(source, done);
    forall d | d in Archive(source, done) ensures d in source {
      ArchiveHas(source, done, d);
    }
    WholeEntries(box, done, Archive(source, done), k, links, source);
  }

  /** What broke off in the middle is not noted, and takes nothing off the notes. */
  lemma CutNotes(t: Tree, done: Completed, archive: seq<Entry>, cut: Cut, links: bool)
    requires cut.k <= |archive|
    ensures ExtractedUpTo(t, done, archive, Some(cut), links).completed
            == Extracted(t, done, archive, cut.k, links).completed
  {
  }

  lemma ComeIsNoted(box: Tree, done: Completed, source: seq<Entry>, cut: Cut, links: bool, e: Entry)
    requires WellFormed(source) && Inside(box, source, links) && Kept(box, done, source) && e in source
    requires cut.k <= |Archive(source, done)| && HasCome(done, Archive(source, done), cut.k, e)
    ensures Skips(ExtractedUpTo(box, done, Archive(source, done), Some(cut), links).completed, e)
  {
    var archive := Archive(source, done);
    ArchiveFits(box, done, source, cut.k, links);
    CutNotes(box, done, archive, cut, links);
    if Skips(done, e) {
      forall i | 0 <= i < cut.k ensures archive[i].path != e.path {
        SkippedPathIsNotSent(source, done, e, i);
      }
      NotedStays(box, done, archive, cut.k, links, e);
    } else {
      var i :| 0 <= i < cut.k && archive[i] == e;
      WholeIsNoted(box, done, archive, cut.k, links, i);
    }
  }

  /** An attempt that asks and claims within five minutes after the end of a cut one goes on in its sandbox, and
      is sent no file that has come whole before. */
  lemma ResumesWithinGrace(tr: Transfer, source: seq<Entry>, a: Attempt, b: Attempt, links: bool, e: Entry)
    requires WellFormed(source) && ParkedInv(tr.parked, source, links) && Agrees(tr, a)
    requires a.reception.cut.Some? && !a.reception.diskFull && !b.claimFirst && e in source
    requires b.peekAt <= a.reception.endAt + 5 * 60 && b.reception.claimAt <= a.reception.endAt + 5 * 60
    ensures var t := After(tr, source, Try(a), links);
      var done := SkipOf(tr, a);
      var k := Clipped(a.reception.cut, Archive(source, done)).value.k;
      && t.parked.Some? && Agrees(t, b) && Claimed(t.parked, b.reception.claimAt) == t.parked
      && k <= |Archive(source, done)|
      && (HasCome(done, Archive(source, done), k, e) ==> e !in Archive(source, SkipOf(t, b)))
  {
    var t, done := After(tr, source, Try(a), links), SkipOf(tr, a);
    var archive := Archive(source, done);
    var cut := Clipped(a.reception.cut, archive).value;
    var claimed := Claimed(tr.parked, a.reception.claimAt);
    var box := if claimed.Some? then claimed.value.sandbox else map[];
    ParkedForGrace(tr, source, a, links);
    ArchiveHas(source, SkipOf(t, b), e);
    if HasCome(done, archive, cut.k, e) {
      ComeIsNoted(box, done, source, cut, links, e);
    }
  }

  /** Later it starts afresh: it is sent everything, into an empty sandbox. */
  lemma StartsAfreshAfterGrace(tr: Transfer, source: seq<Entry>, a: Attempt, b: Attempt, links: bool)
    requires WellFormed(source) && ParkedInv(tr.parked, source, links) && Agrees(tr, a)
    requires a.reception.cut.Some? && !a.reception.diskFull
    requires b.peekAt > a.reception.endAt + 5 * 60 && b.reception.claimAt > a.reception.endAt + 5 * 60
    ensures var t := After(tr, source, Try(a), links);
      SkipOf(t, b) == map[] && After(t, source, Try(b), links) == After(Transfer(None, tr.dest), source, Try(b), links)
    ensures Archive(source, map[]) == source
  {
    ParkedForGrace(tr, source, a, links);
    NothingSkipped(source);
  }

  lemma {:induction false} NothingSkipped(source: seq<Entry>)
    ensures Archive(source, map[]) == source
  {
    if source != [] {
      NothingSkipped(source[..|source| - 1]);
    }
  }

  // ---- A source edited between attempts ----

  /** A file whose content is not the one that was noted is sent again. */
  lemma EditedIsSent(source: seq<Entry>, skip: Completed, e: Entry)
    requires e in source && e.FileEntry? && e.path in skip && skip[e.path] != ContentHash(e.content)
    ensures e in Archive(source, skip)
  {
    ArchiveHas(source, skip, e);
  }

  /** The noted files of a sandbox are whole, whatever tree they come from. */
  predicate NotedAreWhole(box: Tree, done: Completed) {
    forall p :: p in done ==> p in box && box[p].Regular? && done[p] == ContentHash(box[p].content)
  }

  /** So files of the source may change their contents between attempts: a complete attempt still commits
      exactly the tree as it then is. */
  lemma ResumeAfterEdit(earlier: seq<Entry>, source: seq<Entry>, box: Tree, done: Completed, links: bool)
    requires Kept(box, done, earlier) && WellFormed(source) && Inside(box, source, links)
    ensures NotedAreWhole(box, done)
    ensures var archive := Archive(source, done);
      var x := Extracted(box, done, archive, |archive|, links);
      x.error.None? && x.tree == CleanTransfer(source, links)
  {
    forall p | p in done ensures p in box && box[p].Regular? && done[p] == ContentHash(box[p].content) {
      var e :| KeptAs(box, done, earlier, p, e);
    }
    forall e | e in source && Skips(done, e) ensures InPlace(box, e, links) {
      assert done[e.path] == ContentHash(box[e.path].content);
    }
    CompleteIffSkippedWhole(box, done, source, done, links);
  }

  // ---- Without the agreement ----

  /** When the session claims the sandbox before the sender asks, a file already noted as received is
      sent again; cut in the middle, it is skipped next time, and committed truncated. Whatever the
      file and wherever the cut. */
  lemma ClaimBeforePeek(name: Name, content: Content, n: nat, links: bool)
    requires n < |content|
    ensures var p: Path := [name];
      var source := [FileEntry(p, content)];
      && RunFrom(Transfer(None, None), source, CutTwice(n), links).dest == Some(map[p := Regular(content[..n])])
      && IsTree(map[p := Regular(content)], source, links)
  {
    var p: Path := [name];
    var e := FileEntry(p, content);
    FirstAttempt(p, content, links);
    SecondAttempt(p, content, n, links);
    ThirdAttempt(p, content, n, links);
    ThreeSteps(Transfer(None, None), [e], CutTwice(n)[0], CutTwice(n)[1], CutTwice(n)[2], links);
    assert StandsFor(map[p := Regular(content)], [e], links, p, e);
  }

  /** A parked sandbox with one file, noted as received with its whole content. */
  function OneParked(p: Path, noted: Content, held: Content): Transfer {
    Transfer(Some(Parked(map[p := Regular(held)], map[p := ContentHash(noted)], GRACE)), None)
  }

  lemma ArchiveOfOne(e: Entry, skip: Completed)
    ensures Archive([e], skip) == if Skips(skip, e) then [] else [e]
  {
    assert [e][..0] == [];
  }

  lemma FirstAttempt(p: Path, content: Content, links: bool)
    requires |p| == 1
    ensures After(Transfer(None, None), [FileEntry(p, content)], CutTwice(0)[0], links)
            == OneParked(p, content, content)
  {
    ArchiveOfOne(FileEntry(p, content), map[]);
    OneFile(p, content, links);
  }

  lemma SecondAttempt(p: Path, content: Content, n: nat, links: bool)
    requires |p| == 1 && n < |content|
    ensures After(OneParked(p, content, content), [FileEntry(p, content)], CutTwice(n)[1], links)
            == OneParked(p, content, content[..n])
  {
    ArchiveOfOne(FileEntry(p, content), map[]);
    OneFileCut(p, content, n, links);
  }

  lemma ThirdAttempt(p: Path, content: Content, n: nat, links: bool)
    requires n < |content|
    ensures After(OneParked(p, content, content[..n]), [FileEntry(p, content)], CutTwice(n)[2], links)
            == Transfer(None, Some(map[p := Regular(content[..n])]))
  {
    ArchiveOfOne(FileEntry(p, content), map[p := ContentHash(content)]);
  }

  lemma ThreeSteps(tr: Transfer, source: seq<Entry>, a: Step, b: Step, c: Step, links: bool)
    ensures RunFrom(tr, source, [a, b, c], links)
            == After(After(After(tr, source, a, links), source, b, links), source, c, links)
  {
    assert [a][..0] == [] && [a, b][..1] == [a] && [a, b, c][..2] == [a, b];
    assert RunFrom(tr, source, [a], links) == After(tr, source, a, links);
    assert RunFrom(tr, source, [a, b], links) == After(After(tr, source, a, links), source, b, links);
  }

  /** An attempt cut after its one file, one whose session claims first, cut `n` bytes into the file,
      and one that completes. */
  function CutTwice(n: nat): seq<Step> {
    [Try(Attempt(0, false, Reception(0, 0, Some(Cut(1, None)), false))),
     Try(Attempt(0, true, Reception(0, 0, Some(Cut(0, Some(n))), false))),
     Try(Attempt(0, false, Reception(0, 0, None, false)))]
  }

  lemma OneFile(p: Path, content: Content, links: bool)
    requires |p| == 1
    ensures Extracted(map[], map[], [FileEntry(p, content)], 1, links)
            == Extraction(map[p := Regular(content)], map[p := ContentHash(content)], None)
  {
    assert Dir(p) == [];
  }

  lemma OneFileCut(p: Path, content: Content, n: nat, links: bool)
    requires |p| == 1 && n < |content|
    ensures var done := map[p := ContentHash(content)];
      ExtractedUpTo(map[p := Regular(content)], done, [FileEntry(p, content)], Some(Cut(0, Some(n))), links)
      == Extraction(map[p := Regular(content[..n])], done, Some(Truncated))
  {
    assert Dir(p) == [];
    var t: Tree := map[p := Regular(content)];
    assert t[p := Regular(content[..n])] == map[p := Regular(content[..n])];
  }
}
