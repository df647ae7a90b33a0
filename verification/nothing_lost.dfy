/** Published content over runs of writes between two nodes: where every published write is, and
    exactly which deliveries lose one. */
module NothingLost {
  import opened Outcomes
  import opened Paths
  import opened Events
  import opened Bridge
  import opened Session
  import opened Delivery

  // ---- The runs ----

  /** A step that writes, and whose clock has reached `since`. */
  predicate IsWriteStep(step: Step, since: nat) {
    match step
    case UserTree(_) => false
    case Report(c) => c.Modified? || c.Rescan?
    case Deliver(now) => since <= now
    case _ => true
  }

  predicate WritesOnly(run: Run, since: nat) {
    forall i :: 0 <= i < |run| ==> IsWriteStep(run[i].1, since)
  }

  /** `q` is the name of a conflict copy, made from `since` on, of a write by `id`. */
  predicate IsCopyOf(q: Path, id: MachineId, since: nat) {
    Last(q).Aside? && Last(q).origin == id && since <= Last(q).at
  }

  predicate FileIs(files: Files, p: Path, content: Content) {
    p in files && files[p] == content
  }

  predicate IsWriteAt(log: seq<Record>, i: nat) {
    i < |log| && log[i].ev.Write?
  }

  // ---- What became of a published write, on one node ----

  /** A later write of the same path was published by an author who had this one. */
  ghost predicate Superseded(log: seq<Record>, i: nat)
    requires IsWriteAt(log, i)
  {
    exists j: nat :: Supersedes(log, i, j)
  }

  predicate Supersedes(log: seq<Record>, i: nat, j: nat)
    requires IsWriteAt(log, i)
  {
    && i < j && IsWriteAt(log, j) && log[j].ev.path == log[i].ev.path
    && (log[j].author == log[i].author || i < log[j].at)
  }

  /** The node has published a write of path `q`. */
  ghost predicate HasPublished(log: seq<Record>, x: Side, q: Path) {
    exists j: nat :: j < |log| && IsWriteBy(log[j], x, q)
  }

  /** Having consumed write `i`, the node published its content again, as a write of path `q`. */
  ghost predicate Republished(log: seq<Record>, x: Side, i: nat, q: Path)
    requires IsWriteAt(log, i)
  {
    exists j: nat :: Republishes(log, x, i, q, j)
  }

  predicate Republishes(log: seq<Record>, x: Side, i: nat, q: Path, j: nat)
    requires IsWriteAt(log, i)
  {
    j < |log| && IsWriteBy(log[j], x, q) && i < log[j].at && PlainOf(log[j].ev) == PlainOf(log[i].ev)
  }

  /** The user has written file `q` on this node since it consumed message `i`. */
  ghost predicate EditedSince(l: Local, i: nat, q: Path) {
    exists c: nat :: i < c && (q, c) in l.edits
  }

  /** The copy of write `i` that was put at `q`: it is there, or the user has written that file since,
      or the node has published the content under that name. With `unnamed`, a copy that is there is
      one whose name the node has never published. */
  ghost predicate CopyKept(s: State, x: Side, i: nat, q: Path, unnamed: bool)
    requires IsWriteAt(s.log, i)
  {
    || (FileIs(s.Of(x).node.files, q, PlainOf(s.log[i].ev)) && (unnamed ==> !HasPublished(s.log, x, q)))
    || EditedSince(s.Of(x), i, q)
    || Republished(s.log, x, i, q)
  }

  ghost predicate InConflictFile(s: State, x: Side, i: nat, unnamed: bool)
    requires IsWriteAt(s.log, i)
  {
    i in s.Of(x).aside && CopyKept(s, x, i, s.Of(x).aside[i], unnamed)
  }

  predicate InFlight(s: State, x: Side, i: nat)
    requires i < |s.log|
  {
    s.log[i].author == x.Other() && s.Of(x).cursor <= i
  }

  /** The write went to its own path on this node: it is its own, or was applied there. */
  predicate InPlace(s: State, x: Side, i: nat)
    requires i < |s.log|
  {
    s.log[i].author == x || (i < s.Of(x).cursor && i !in s.Of(x).aside)
  }

  predicate Current(s: State, x: Side, i: nat)
    requires IsWriteAt(s.log, i)
  {
    InPlace(s, x, i) && FileIs(s.Of(x).node.files, s.log[i].ev.path, PlainOf(s.log[i].ev))
  }

  /** The user has written the file since, and that is still to be published. */
  predicate ChangedLocally(s: State, x: Side, i: nat)
    requires IsWriteAt(s.log, i)
  {
    InPlace(s, x, i) && s.log[i].ev.path in s.Of(x).edited
  }

  ghost predicate AccountedFor(s: State, x: Side, i: nat, unnamed: bool)
    requires IsWriteAt(s.log, i)
  {
    InFlight(s, x, i) || Current(s, x, i) || ChangedLocally(s, x, i) || Superseded(s.log, i)
    || InConflictFile(s, x, i, unnamed)
  }

  ghost predicate Accounted(s: State, x: Side, i: nat)
    requires IsWriteAt(s.log, i)
  {
    AccountedFor(s, x, i, false)
  }

  // ---- What a run must not do ----

  /** The next delivery is applied in place, at a path that holds the last trace of write `i`: its
      unreported conflict copy, which nobody has edited, republished or superseded. */
  ghost predicate OverwritesCopy(s: State, x: Side, step: Step, i: nat) {
    && step.Deliver? && NextIsPeerWrite(s, x) && IsWriteAt(s.log, i) && i in s.Of(x).aside
    && var r := s.log[s.Of(x).cursor];
    && AuthorHadAll(s.log, r, x, r.ev.path) && s.Of(x).aside[i] == r.ev.path && PlainOf(r.ev) != PlainOf(s.log[i].ev)
    && !Superseded(s.log, i) && !EditedSince(s.Of(x), i, r.ev.path) && !Republished(s.log, x, i, r.ev.path)
  }

  /** The next delivery is set aside at a path that holds write `i` in place, which nobody has edited or
      superseded: its conflict name is that of a file published before. */
  ghost predicate OverwritesPublished(s: State, x: Side, step: Step, i: nat) {
    && step.Deliver? && NextIsPeerWrite(s, x) && IsWriteAt(s.log, i) && Current(s, x, i)
    && var r := s.log[s.Of(x).cursor];
    && !AuthorHadAll(s.log, r, x, r.ev.path)
    && s.log[i].ev.path == ConflictPath(r.ev.path, s.Id(x.Other()), step.now)
    && PlainOf(r.ev) != PlainOf(s.log[i].ev) && !Superseded(s.log, i) && !ChangedLocally(s, x, i)
  }

  /** The delivery replaces the last trace of write `i`. */
  ghost predicate Overwrites(s: State, x: Side, step: Step, i: nat) {
    OverwritesCopy(s, x, step, i) || OverwritesPublished(s, x, step, i)
  }

  /** The next delivery is set aside under a name that this node has already published a file by:
      the same path was in conflict before, within the same second. */
  ghost predicate TakesUsedName(s: State, x: Side, step: Step) {
    && step.Deliver? && NextIsPeerWrite(s, x)
    && var r := s.log[s.Of(x).cursor];
    && !AuthorHadAll(s.log, r, x, r.ev.path)
    && HasPublished(s.log, x, ConflictPath(r.ev.path, s.Id(x.Other()), step.now))
  }

  /** The user writes a file by the name of a conflict copy of this node's own writes, and there is
      none such. */
  predicate MakesUpCopy(s: State, x: Side, step: Step) {
    step.UserWrite? && Last(step.path).Aside? && Last(step.path).origin == s.Id(x)
    && step.path !in s.Of(x).node.files
  }

  /** What a step must not do, to keep writes accounted for. */
  ghost predicate StepKeeps(s: State, x: Side, step: Step, unnamed: bool) {
    if unnamed then !TakesUsedName(s, x, step) && !MakesUpCopy(s, x, step)
    else forall i: nat :: !Overwrites(s, x, step, i)
  }

  // ---- The invariant ----

  /** What was set aside is a consumed write of the peer, under the name of its own conflict copy. */
  predicate AsideAs(s: State, x: Side, since: nat, i: nat)
    requires i in s.Of(x).aside
  {
    var q := s.Of(x).aside[i];
    && i < s.Of(x).cursor && IsWriteAt(s.log, i) && s.log[i].author == x.Other()
    && IsCopyOf(q, s.Id(x.Other()), since)
    && q == ConflictPath(s.log[i].ev.path, s.Id(x.Other()), Last(q).at)
  }

  ghost predicate AsideInv(s: State, x: Side, since: nat) {
    s.Of(x).cursor <= |s.log| && forall i :: i in s.Of(x).aside ==> AsideAs(s, x, since, i)
  }

  /** Copies of a node's own writes reach it only from its peer. */
  ghost predicate CopiesFromPeer(s: State, x: Side, since: nat) {
    && (forall q :: q in s.Of(x).node.files && IsCopyOf(q, s.Id(x), since) ==> HasPublished(s.log, x.Other(), q))
    && (forall i: nat | IsWriteAt(s.log, i) && s.log[i].author == x ::
          IsCopyOf(s.log[i].ev.path, s.Id(x), since) ==> HasPublished(s.log, x.Other(), s.log[i].ev.path))
  }

  ghost predicate AllAccounted(s: State, x: Side, unnamed: bool) {
    forall i: nat :: IsWriteAt(s.log, i) ==> AccountedFor(s, x, i, unnamed)
  }

  ghost predicate SideInv(s: State, x: Side, since: nat, unnamed: bool) {
    AsideInv(s, x, since) && AllAccounted(s, x, unnamed) && (unnamed ==> CopiesFromPeer(s, x, since))
  }

  ghost predicate Inv(s: State, since: nat, unnamed: bool) {
    && (forall x: Side :: SideInv(s, x, since, unnamed))
    && (forall i: nat :: i < |s.log| ==> !s.log[i].ev.Remove? && !s.log[i].ev.Rename?)
  }

  // ---- Publishing ----

  /** Appending to the stream keeps what was known of earlier writes. */
  lemma LogGrows(log: seq<Record>, r: Record, i: nat)
    requires IsWriteAt(log, i)
    ensures Superseded(log, i) ==> Superseded(log + [r], i)
    ensures forall x, q :: Republished(log, x, i, q) ==> Republished(log + [r], x, i, q)
    ensures forall x, q :: HasPublished(log + [r], x, q) <==> HasPublished(log, x, q) || IsWriteBy(r, x, q)
  {
    var more := log + [r];
    if Superseded(log, i) {
      var j: nat :| Supersedes(log, i, j);
      assert Supersedes(more, i, j);
    }
    forall x, q | Republished(log, x, i, q) ensures Republished(more, x, i, q) {
      var j: nat :| Republishes(log, x, i, q, j);
      assert Republishes(more, x, i, q, j);
    }
    forall x, q ensures HasPublished(more, x, q) <==> HasPublished(log, x, q) || IsWriteBy(r, x, q) {
      PublishedGrows(log, r, x, q);
    }
  }

  lemma PublishedGrows(log: seq<Record>, r: Record, x: Side, q: Path)
    ensures HasPublished(log + [r], x, q) <==> HasPublished(log, x, q) || IsWriteBy(r, x, q)
  {
    var more := log + [r];
    if HasPublished(log, x, q) {
      var j: nat :| j < |log| && IsWriteBy(log[j], x, q);
      assert more[j] == log[j];
    }
    if IsWriteBy(r, x, q) {
      assert IsWriteBy(more[|log|], x, q);
    }
  }

  /** A message by its peer changes nothing about what a node holds of earlier writes. */
  lemma OtherAppends(s: State, t: State, x: Side, r: Record, i: nat, unnamed: bool)
    requires t.log == s.log + [r] && r.author == x.Other() && t.Of(x) == s.Of(x)
    requires IsWriteAt(s.log, i) && AccountedFor(s, x, i, unnamed)
    ensures AccountedFor(t, x, i, unnamed)
  {
    LogGrows(s.log, r, i);
  }

  lemma PublishAccounted(s: State, x: Side, p: Path, i: nat, since: nat, unnamed: bool)
    requires AsideInv(s, x, since) && p in s.Of(x).node.files
    requires IsWriteAt(s.log, i) && AccountedFor(s, x, i, unnamed)
    ensures AccountedFor(PublishWrite(s, x, p), x, i, unnamed)
  {
    var t, n := PublishWrite(s, x, p), |s.log|;
    LogGrows(s.log, t.log[n], i);
    if InPlace(s, x, i) && s.log[i].ev.path == p {
      assert Supersedes(t.log, i, n);
    } else if InConflictFile(s, x, i, unnamed) && s.Of(x).aside[i] == p {
      assert AsideAs(s, x, since, i);
      assert FileIs(s.Of(x).node.files, p, PlainOf(s.log[i].ev)) ==> Republishes(t.log, x, i, p, n);
    }
  }

  lemma NewWriteAccounted(s: State, x: Side, p: Path, z: Side, unnamed: bool)
    requires p in s.Of(x).node.files && s.Of(x.Other()).cursor <= |s.log|
    ensures AccountedFor(PublishWrite(s, x, p), z, |s.log|, unnamed)
  {
    var t := PublishWrite(s, x, p);
    assert z == x || z == x.Other();
    assert x.Other().Other() == x;
    if z == x {
      assert Current(t, x, |s.log|);
    } else {
      assert InFlight(t, z, |s.log|);
    }
  }

  lemma CopiesGrow(s: State, t: State, z: Side, r: Record, since: nat)
    requires t.log == s.log + [r] && t.Of(z).node.files == s.Of(z).node.files && t.Id(z) == s.Id(z)
    requires CopiesFromPeer(s, z, since)
    requires r.ev.Write? && r.author == z ==> r.ev.path in s.Of(z).node.files
    ensures CopiesFromPeer(t, z, since)
  {
    forall q | HasPublished(s.log, z.Other(), q) ensures HasPublished(t.log, z.Other(), q) {
      PublishedGrows(s.log, r, z.Other(), q);
    }
  }

  lemma AsideGrows(s: State, t: State, z: Side, r: Record, since: nat)
    requires t.log == s.log + [r] && t.Of(z).aside == s.Of(z).aside && t.Of(z).cursor == s.Of(z).cursor
    requires t.Id(z.Other()) == s.Id(z.Other()) && AsideInv(s, z, since)
    ensures AsideInv(t, z, since)
  {
    forall i | i in t.Of(z).aside ensures AsideAs(t, z, since, i) {
      assert AsideAs(s, z, since, i);
    }
  }

  lemma PublishInv(s: State, x: Side, p: Path, since: nat, unnamed: bool)
    requires Inv(s, since, unnamed) && p in s.Of(x).node.files
    ensures Inv(PublishWrite(s, x, p), since, unnamed)
  {
    var t := PublishWrite(s, x, p);
    var r := t.log[|s.log|];
    assert t.log == s.log + [r];
    assert SideInv(s, x.Other(), since, unnamed);
    forall z: Side ensures SideInv(t, z, since, unnamed) {
      assert SideInv(s, z, since, unnamed) && (z == x || z == x.Other());
      AsideGrows(s, t, z, r, since);
      if unnamed {
        CopiesGrow(s, t, z, r, since);
      }
      forall i: nat | IsWriteAt(t.log, i) ensures AccountedFor(t, z, i, unnamed) {
        if i == |s.log| {
          NewWriteAccounted(s, x, p, z, unnamed);
        } else if z == x {
          PublishAccounted(s, x, p, i, since, unnamed);
        } else {
          assert x.Other().Other() == x;
          OtherAppends(s, t, z, r, i, unnamed);
        }
      }
    }
  }

  lemma ControlInv(s: State, x: Side, ev: Event, since: nat, unnamed: bool)
    requires Inv(s, since, unnamed) && Next(s, x, Control(ev)).Some?
    ensures Inv(Next(s, x, Control(ev)).value, since, unnamed)
  {
    var t := Next(s, x, Control(ev)).value;
    var r := t.log[|s.log|];
    forall z: Side ensures SideInv(t, z, since, unnamed) {
      assert SideInv(s, z, since, unnamed);
      AsideGrows(s, t, z, r, since);
      if unnamed {
        CopiesGrow(s, t, z, r, since);
      }
      ControlAccounted(s, t, z, r, unnamed);
    }
  }

  lemma ControlAccounted(s: State, t: State, z: Side, r: Record, unnamed: bool)
    requires t.log == s.log + [r] && !r.ev.Write? && t.Of(z) == s.Of(z) && AllAccounted(s, z, unnamed)
    ensures AllAccounted(t, z, unnamed)
  {
    forall i: nat | IsWriteAt(t.log, i) ensures AccountedFor(t, z, i, unnamed) {
      assert AccountedFor(s, z, i, unnamed);
      LogGrows(s.log, r, i);
    }
  }

  // ---- Deliveries ----

  /** The state once the peer's next write has been applied, or set aside. */
  function AfterPeerWrite(s: State, x: Side, node: Node, outcome: Outcome): State
    requires NextIsPeerWrite(s, x)
  {
    s.With(x, Arrived(s.Of(x), node, s.log[s.Of(x).cursor].ev.path, outcome))
  }

  /** Under unnamed copies, a peer's write never comes to the place of one. */
  lemma CopyIsOutOfReach(s: State, x: Side, since: nat, i: nat)
    requires NextIsPeerWrite(s, x) && AsideInv(s, x, since) && CopiesFromPeer(s, x.Other(), since)
    requires i in s.Of(x).aside && s.Of(x).aside[i] == s.log[s.Of(x).cursor].ev.path
    ensures HasPublished(s.log, x, s.Of(x).aside[i])
  {
    assert AsideAs(s, x, since, i);
    assert IsWriteAt(s.log, s.Of(x).cursor) && x.Other().Other() == x;
  }

  lemma NotYetAside(s: State, x: Side, since: nat)
    requires AsideInv(s, x, since)
    ensures s.Of(x).cursor !in s.Of(x).aside
  {
  }

  /** A write applied in place: every write stays accounted for but those whose last trace it overwrites. */
  lemma AppliedAccounted(s: State, x: Side, now: nat, node: Node, i: nat, since: nat, unnamed: bool)
    requires NextIsPeerWrite(s, x) && AsideInv(s, x, since) && (unnamed ==> CopiesFromPeer(s, x.Other(), since))
    requires IsWriteAt(s.log, i) && AccountedFor(s, x, i, unnamed)
    requires var r := s.log[s.Of(x).cursor];
      && r.at <= s.Of(x).cursor && AuthorHadAll(s.log, r, x, r.ev.path)
      && node.files == s.Of(x).node.files[r.ev.path := PlainOf(r.ev)]
    requires unnamed || !Overwrites(s, x, Deliver(now), i)
    ensures AccountedFor(AfterPeerWrite(s, x, node, AppliedIt), x, i, unnamed)
  {
    var t, c := AfterPeerWrite(s, x, node, AppliedIt), s.Of(x).cursor;
    assert s.log[i].author == x || s.log[i].author == x.Other();
    if i == c {
      NotYetAside(s, x, since);
      assert Current(t, x, c);
    } else if InPlace(s, x, i) && s.log[i].ev.path == s.log[c].ev.path {
      assert s.log[i].author == x ==> IsWriteBy(s.log[i], x, s.log[c].ev.path);
      assert Supersedes(s.log, i, c);
    } else if InConflictFile(s, x, i, unnamed) && s.Of(x).aside[i] == s.log[c].ev.path {
      if unnamed {
        CopyIsOutOfReach(s, x, since, i);
      }
    }
  }

  /** And those it does lose. */
  lemma CopyIsLost(s: State, x: Side, now: nat, node: Node, i: nat)
    requires NextIsPeerWrite(s, x) && OverwritesCopy(s, x, Deliver(now), i) && i < s.Of(x).cursor
    requires s.log[i].author == x.Other()
    requires var r := s.log[s.Of(x).cursor]; node.files == s.Of(x).node.files[r.ev.path := PlainOf(r.ev)]
    ensures !Accounted(AfterPeerWrite(s, x, node, AppliedIt), x, i)
  {
    assert x != x.Other();
  }

  /** As does a write set aside over a published file. */
  lemma PublishedIsLost(s: State, x: Side, now: nat, node: Node, i: nat, since: nat)
    requires NextIsPeerWrite(s, x) && OverwritesPublished(s, x, Deliver(now), i) && AsideInv(s, x, since)
    requires var r := s.log[s.Of(x).cursor];
      node.files == s.Of(x).node.files[ConflictPath(r.ev.path, s.Id(x.Other()), now) := PlainOf(r.ev)]
    ensures var q := s.log[i].ev.path; !Accounted(AfterPeerWrite(s, x, node, SetAside(q)), x, i)
  {
    assert x != x.Other();
    assert i in s.Of(x).aside ==> AsideAs(s, x, since, i);
  }

  /** A file written at `q`, where write `i` has no copy and is not in place, or is known otherwise,
      leaves write `i` accounted for. */
  lemma ElsewhereAccounted(s: State, x: Side, t: State, q: Path, i: nat, unnamed: bool)
    requires IsWriteAt(s.log, i) && AccountedFor(s, x, i, unnamed) && t.log == s.log && i != s.Of(x).cursor
    requires forall p :: p in s.Of(x).node.files && p != q ==>
      p in t.Of(x).node.files && t.Of(x).node.files[p] == s.Of(x).node.files[p]
    requires Current(s, x, i) && s.log[i].ev.path == q ==>
      FileIs(t.Of(x).node.files, q, PlainOf(s.log[i].ev)) || Superseded(s.log, i) || ChangedLocally(s, x, i)
    requires t.Of(x).edited == s.Of(x).edited && t.Of(x).edits == s.Of(x).edits
    requires t.Of(x).cursor == s.Of(x).cursor + 1
    requires forall j :: j != s.Of(x).cursor ==> (j in t.Of(x).aside <==> j in s.Of(x).aside)
    requires i in s.Of(x).aside ==>
      t.Of(x).aside[i] == s.Of(x).aside[i] && (s.Of(x).aside[i] != q || Superseded(s.log, i))
    ensures AccountedFor(t, x, i, unnamed)
  {
    if i in s.Of(x).aside && EditedSince(s.Of(x), i, s.Of(x).aside[i]) {
      assert EditedSince(t.Of(x), i, t.Of(x).aside[i]);
    }
  }

  lemma SetAsideAccounted(s: State, x: Side, node: Node, now: nat, i: nat, since: nat, unnamed: bool)
    requires NextIsPeerWrite(s, x) && AsideInv(s, x, since) && (unnamed ==> CopiesFromPeer(s, x.Other(), since))
    requires since <= now && StepKeeps(s, x, Deliver(now), unnamed)
    requires var r := s.log[s.Of(x).cursor];
      && !AuthorHadAll(s.log, r, x, r.ev.path)
      && node.files == s.Of(x).node.files[ConflictPath(r.ev.path, s.Id(x.Other()), now) := PlainOf(r.ev)]
    requires IsWriteAt(s.log, i) && AccountedFor(s, x, i, unnamed)
    ensures var p := s.log[s.Of(x).cursor].ev.path;
      AccountedFor(AfterPeerWrite(s, x, node, SetAside(ConflictPath(p, s.Id(x.Other()), now))), x, i, unnamed)
  {
    var c := s.Of(x).cursor;
    var q := ConflictPath(s.log[c].ev.path, s.Id(x.Other()), now);
    var t := AfterPeerWrite(s, x, node, SetAside(q));
    if i == c {
      assert CopyKept(t, x, c, q, unnamed);
    } else {
      if i in s.Of(x).aside && s.Of(x).aside[i] == q {
        SameNameSupersedes(s, x, now, i, since);
      }
      if unnamed {
        NewNameIsFree(s, x, q, i, since);
      } else {
        assert !Overwrites(s, x, Deliver(now), i);
      }
      ElsewhereAccounted(s, x, t, q, i, unnamed);
    }
  }

  /** No write in place has the name of a conflict copy that the node has not published a file by. */
  lemma NewNameIsFree(s: State, x: Side, q: Path, i: nat, since: nat)
    requires CopiesFromPeer(s, x.Other(), since) && IsCopyOf(q, s.Id(x.Other()), since)
    requires IsWriteAt(s.log, i) && !HasPublished(s.log, x, q)
    ensures s.log[i].ev.path != q
  {
    assert x.Other().Other() == x && (s.log[i].author == x || s.log[i].author == x.Other());
    assert IsWriteBy(s.log[i], x, q) <==> s.log[i].author == x && s.log[i].ev.path == q;
  }

  /** Two writes of the peer set aside under one name: the later supersedes the earlier. */
  lemma SameNameSupersedes(s: State, x: Side, now: nat, i: nat, since: nat)
    requires NextIsPeerWrite(s, x) && AsideInv(s, x, since) && i in s.Of(x).aside
    requires s.Of(x).aside[i] == ConflictPath(s.log[s.Of(x).cursor].ev.path, s.Id(x.Other()), now)
    ensures IsWriteAt(s.log, i) && Superseded(s.log, i)
  {
    assert AsideAs(s, x, since, i);
    var p := s.log[s.Of(x).cursor].ev.path;
    ConflictPathInjective(p, s.log[i].ev.path, s.Id(x.Other()), s.Id(x.Other()), now, Last(s.Of(x).aside[i]).at);
    assert Supersedes(s.log, i, s.Of(x).cursor);
  }

  /** What a received write leaves on disk, by the delivery decision. */
  lemma PeerWriteFiles(keys: Option<Keys>, s: State, x: Side, now: nat)
    requires CountInv(s) && ChainInv(keys, s) && NextIsPeerWrite(s, x)
    requires Received(s.Of(x).node, s.log[s.Of(x).cursor].ev, now).Ok?
    ensures var r := s.log[s.Of(x).cursor];
      var (node, outcome) := Received(s.Of(x).node, r.ev, now).value;
      && r.at <= s.Of(x).cursor && node.id == s.Id(x)
      && if AuthorHadAll(s.log, r, x, r.ev.path) then
           outcome == AppliedIt && node.files == s.Of(x).node.files[r.ev.path := PlainOf(r.ev)]
         else
           var q := ConflictPath(r.ev.path, s.Id(x.Other()), now);
           outcome == SetAside(q) && node.files == s.Of(x).node.files[q := PlainOf(r.ev)]
  {
    var r := s.log[s.Of(x).cursor];
    assert RecordCounts(IdsOf(s), s.log, s.Of(x).cursor);
    NeverFailsToDecrypt(keys, s, x, now);
    ReceivedFiles(s.Of(x).node, r.ev, PlainOf(r.ev), now);
    FirstDelivery(s, x, now);
  }

  /** The delivery of a peer's write, as far as files and positions go. */
  lemma PeerWriteStep(keys: Option<Keys>, s: State, x: Side, now: nat) returns (node: Node, outcome: Outcome)
    requires CountInv(s) && ChainInv(keys, s) && NextIsPeerWrite(s, x) && Next(s, x, Deliver(now)).Some?
    ensures Next(s, x, Deliver(now)).value == AfterPeerWrite(s, x, node, outcome) && node.id == s.Id(x)
    ensures s.log[s.Of(x).cursor].at <= s.Of(x).cursor
    ensures var r := s.log[s.Of(x).cursor];
      var q := ConflictPath(r.ev.path, s.Id(x.Other()), now);
      if AuthorHadAll(s.log, r, x, r.ev.path) then
        outcome == AppliedIt && node.files == s.Of(x).node.files[r.ev.path := PlainOf(r.ev)]
      else outcome == SetAside(q) && node.files == s.Of(x).node.files[q := PlainOf(r.ev)]
  {
    PeerWriteFiles(keys, s, x, now);
    node := Received(s.Of(x).node, s.log[s.Of(x).cursor].ev, now).value.0;
    outcome := Received(s.Of(x).node, s.log[s.Of(x).cursor].ev, now).value.1;
  }

  lemma DeliveredAccounted(s: State, x: Side, node: Node, outcome: Outcome, now: nat, i: nat, since: nat, unnamed: bool)
    requires NextIsPeerWrite(s, x) && AsideInv(s, x, since) && (unnamed ==> CopiesFromPeer(s, x.Other(), since))
    requires since <= now && StepKeeps(s, x, Deliver(now), unnamed) && s.log[s.Of(x).cursor].at <= s.Of(x).cursor
    requires var r := s.log[s.Of(x).cursor];
      var q := ConflictPath(r.ev.path, s.Id(x.Other()), now);
      if AuthorHadAll(s.log, r, x, r.ev.path) then
        outcome == AppliedIt && node.files == s.Of(x).node.files[r.ev.path := PlainOf(r.ev)]
      else outcome == SetAside(q) && node.files == s.Of(x).node.files[q := PlainOf(r.ev)]
    requires IsWriteAt(s.log, i) && AccountedFor(s, x, i, unnamed)
    ensures AccountedFor(AfterPeerWrite(s, x, node, outcome), x, i, unnamed)
  {
    if outcome.AppliedIt? {
      AppliedAccounted(s, x, now, node, i, since, unnamed);
    } else {
      SetAsideAccounted(s, x, node, now, i, since, unnamed);
    }
  }

  lemma DeliveredCopies(s: State, x: Side, t: State, z: Side, since: nat)
    requires NextIsPeerWrite(s, x) && CopiesFromPeer(s, z, since) && t == s.With(x, t.Of(x)) && t.Id(x) == s.Id(x)
    requires forall q :: q in t.Of(x).node.files ==>
      q in s.Of(x).node.files || q == s.log[s.Of(x).cursor].ev.path || !IsCopyOf(q, s.Id(x), since)
    ensures CopiesFromPeer(t, z, since)
  {
    assert IsWriteBy(s.log[s.Of(x).cursor], x.Other(), s.log[s.Of(x).cursor].ev.path);
    assert z == x || z == x.Other();
  }

  lemma DeliveredAside(s: State, x: Side, t: State, now: nat, since: nat)
    requires NextIsPeerWrite(s, x) && AsideInv(s, x, since) && since <= now && t == s.With(x, t.Of(x))
    requires t.Of(x).cursor == s.Of(x).cursor + 1
    requires var q := ConflictPath(s.log[s.Of(x).cursor].ev.path, s.Id(x.Other()), now);
      t.Of(x).aside == s.Of(x).aside || t.Of(x).aside == s.Of(x).aside[s.Of(x).cursor := q]
    ensures AsideInv(t, x, since)
  {
    var p := s.log[s.Of(x).cursor].ev.path;
    assert Last(ConflictPath(p, s.Id(x.Other()), now)) == Aside(Last(p), s.Id(x.Other()), now);
    forall i | i in t.Of(x).aside ensures AsideAs(t, x, since, i) {
      assert i in s.Of(x).aside ==> AsideAs(s, x, since, i);
    }
  }

  /** A node that does nothing keeps everything it has. */
  lemma OtherSide(s: State, t: State, x: Side, since: nat, unnamed: bool)
    requires t == s.With(x, t.Of(x)) && t.Id(x) == s.Id(x) && SideInv(s, x.Other(), since, unnamed)
    ensures SideInv(t, x.Other(), since, unnamed)
  {
    var y := x.Other();
    assert y.Other() == x && t.Of(y) == s.Of(y);
    forall i | i in t.Of(y).aside ensures AsideAs(t, y, since, i) {
      assert AsideAs(s, y, since, i);
    }
    forall i: nat | IsWriteAt(t.log, i) ensures AccountedFor(t, y, i, unnamed) {
      assert AccountedFor(s, y, i, unnamed);
    }
  }

  lemma DeliverInv(keys: Option<Keys>, s: State, x: Side, now: nat, since: nat, unnamed: bool)
    requires CountInv(s) && ChainInv(keys, s) && Inv(s, since, unnamed) && since <= now && NextIsPeerWrite(s, x)
    requires Next(s, x, Deliver(now)).Some? && StepKeeps(s, x, Deliver(now), unnamed)
    ensures Inv(Next(s, x, Deliver(now)).value, since, unnamed)
  {
    var t, y := Next(s, x, Deliver(now)).value, x.Other();
    var node, outcome := PeerWriteStep(keys, s, x, now);
    assert SideInv(s, x, since, unnamed) && SideInv(s, y, since, unnamed) && y.Other() == x;
    OtherSide(s, t, x, since, unnamed);
    DeliveredAside(s, x, t, now, since);
    forall i: nat | IsWriteAt(s.log, i) ensures AccountedFor(t, x, i, unnamed) {
      DeliveredAccounted(s, x, node, outcome, now, i, since, unnamed);
    }
    if unnamed {
      CopiesAfter(s, x, t, now, since);
    }
    forall z: Side ensures SideInv(t, z, since, unnamed) {
      assert z == x || z == y;
    }
  }

  lemma CopiesAfter(s: State, x: Side, t: State, now: nat, since: nat)
    requires NextIsPeerWrite(s, x) && CopiesFromPeer(s, x, since) && s.Id(A) != s.Id(B)
    requires t == s.With(x, t.Of(x)) && t.Id(x) == s.Id(x)
    requires var r := s.log[s.Of(x).cursor];
      || t.Of(x).node.files == s.Of(x).node.files[r.ev.path := PlainOf(r.ev)]
      || t.Of(x).node.files == s.Of(x).node.files[ConflictPath(r.ev.path, s.Id(x.Other()), now) := PlainOf(r.ev)]
    ensures CopiesFromPeer(t, x, since)
  {
    var p := s.log[s.Of(x).cursor].ev.path;
    assert Last(ConflictPath(p, s.Id(x.Other()), now)) == Aside(Last(p), s.Id(x.Other()), now);
    DeliveredCopies(s, x, t, x, since);
  }

  // ---- Every step keeps it ----

  lemma UserWriteAccounted(s: State, x: Side, p: Path, content: Content, i: nat, since: nat, unnamed: bool)
    requires AsideInv(s, x, since)
    requires IsWriteAt(s.log, i) && AccountedFor(s, x, i, unnamed)
    ensures AccountedFor(Next(s, x, UserWrite(p, content)).value, x, i, unnamed)
  {
    var t := Next(s, x, UserWrite(p, content)).value;
    if InConflictFile(s, x, i, unnamed) {
      assert AsideAs(s, x, since, i);
      var q := s.Of(x).aside[i];
      if EditedSince(s.Of(x), i, q) {
        var c: nat :| i < c && (q, c) in s.Of(x).edits;
        assert (q, c) in t.Of(x).edits;
      } else if q == p {
        assert (q, s.Of(x).cursor) in t.Of(x).edits;
      }
    }
  }

  /** A local step without a message: a user's write, a dropped report, or consuming a message
      that is not a peer's write. */
  lemma QuietInv(s: State, x: Side, step: Step, since: nat, unnamed: bool)
    requires Inv(s, since, unnamed) && Next(s, x, step).Some? && IsWriteStep(step, since)
    requires Next(s, x, step).value.log == s.log && !(step.Deliver? && NextIsPeerWrite(s, x))
    requires unnamed ==> !MakesUpCopy(s, x, step)
    ensures Inv(Next(s, x, step).value, since, unnamed)
  {
    var t := Next(s, x, step).value;
    assert SideInv(s, x, since, unnamed) && SideInv(s, x.Other(), since, unnamed);
    QuietLocal(s, x, step, since);
    OtherSide(s, t, x, since, unnamed);
    forall i | i in t.Of(x).aside ensures AsideAs(t, x, since, i) {
      assert AsideAs(s, x, since, i);
    }
    QuietAllAccounted(s, x, step, since, unnamed);
    forall z: Side ensures SideInv(t, z, since, unnamed) {
      assert z == x || z == x.Other();
    }
  }

  lemma QuietAllAccounted(s: State, x: Side, step: Step, since: nat, unnamed: bool)
    requires SideInv(s, x, since, unnamed) && Next(s, x, step).Some? && IsWriteStep(step, since)
    requires forall i: nat :: i < |s.log| ==> !s.log[i].ev.Remove? && !s.log[i].ev.Rename?
    requires Next(s, x, step).value.log == s.log && !(step.Deliver? && NextIsPeerWrite(s, x))
    ensures AllAccounted(Next(s, x, step).value, x, unnamed)
  {
    var t := Next(s, x, step).value;
    QuietLocal(s, x, step, since);
    forall i: nat | IsWriteAt(s.log, i) ensures AccountedFor(t, x, i, unnamed) {
      assert AccountedFor(s, x, i, unnamed);
      if step.UserWrite? {
        UserWriteAccounted(s, x, step.path, step.content, i, since, unnamed);
      } else {
        QuietAccounted(s, x, t, i, unnamed);
      }
    }
  }

  /** What such a step leaves as it was. */
  lemma QuietLocal(s: State, x: Side, step: Step, since: nat)
    requires Next(s, x, step).Some? && IsWriteStep(step, since)
    requires forall i: nat :: i < |s.log| ==> !s.log[i].ev.Remove? && !s.log[i].ev.Rename?
    requires Next(s, x, step).value.log == s.log && !(step.Deliver? && NextIsPeerWrite(s, x))
    ensures var t := Next(s, x, step).value;
      && t == s.With(x, t.Of(x)) && t.Id(x) == s.Id(x) && t.Of(x).aside == s.Of(x).aside
      && s.Of(x).cursor <= t.Of(x).cursor && (s.Of(x).cursor <= |s.log| ==> t.Of(x).cursor <= |s.log|)
      && (!step.UserWrite? ==>
            && t.Of(x).node.files == s.Of(x).node.files && t.Of(x).edited == s.Of(x).edited
            && t.Of(x).edits == s.Of(x).edits
            && forall i: nat :: s.Of(x).cursor <= i < t.Of(x).cursor && IsWriteAt(s.log, i) ==> s.log[i].author == x)
  {
    if step.Deliver? {
      assert s.log[s.Of(x).cursor].author == x || s.log[s.Of(x).cursor].author == x.Other();
    }
  }

  lemma QuietAccounted(s: State, x: Side, t: State, i: nat, unnamed: bool)
    requires t == s.With(x, t.Of(x)) && t.Of(x).aside == s.Of(x).aside && s.Of(x).cursor <= t.Of(x).cursor
    requires t.Of(x).node.files == s.Of(x).node.files && t.Of(x).edited == s.Of(x).edited
    requires t.Of(x).edits == s.Of(x).edits
    requires forall j: nat :: s.Of(x).cursor <= j < t.Of(x).cursor && IsWriteAt(s.log, j) ==> s.log[j].author == x
    requires IsWriteAt(s.log, i) && AccountedFor(s, x, i, unnamed)
    ensures AccountedFor(t, x, i, unnamed)
  {
    assert x != x.Other();
    if EditedSince(s.Of(x), i, s.log[i].ev.path) {
      var c: nat :| i < c && (s.log[i].ev.path, c) in s.Of(x).edits;
    }
  }

  lemma StepInv(keys: Option<Keys>, s: State, x: Side, step: Step, since: nat, unnamed: bool)
    requires CountInv(s) && ChainInv(keys, s) && Inv(s, since, unnamed)
    requires IsWriteStep(step, since) && Next(s, x, step).Some? && StepKeeps(s, x, step, unnamed)
    ensures Inv(Next(s, x, step).value, since, unnamed)
  {
    if Next(s, x, step).value.log == s.log {
      if step.Deliver? && NextIsPeerWrite(s, x) {
        DeliverInv(keys, s, x, step.now, since, unnamed);
      } else {
        QuietInv(s, x, step, since, unnamed);
      }
    } else {
      match step
      case Control(ev) => ControlInv(s, x, ev, since, unnamed);
      case Push(p) => PublishInv(s, x, p, since, unnamed);
      case Report(c) => PublishInv(s, x, c.path, since, unnamed);
    }
  }

  // ---- The theorems ----

  /** No file at the start of the session has the name of a copy this session will make. */
  predicate NoCopies(files: Files, id: MachineId, since: nat) {
    forall q :: q in files ==> !IsCopyOf(q, id, since)
  }

  ghost predicate RunKeeps(s: State, run: Run, unnamed: bool) {
    forall k :: 0 <= k < |run| ==> KeepsAt(s, run, k, unnamed)
  }

  ghost predicate KeepsAt(s: State, run: Run, k: nat, unnamed: bool)
    requires k < |run|
  {
    RunFrom(s, run[..k]).Some? ==> StepKeeps(RunFrom(s, run[..k]).value, run[k].0, run[k].1, unnamed)
  }

  /** No step of the run overwrites the last trace of a write. */
  ghost predicate NeverOverwrites(s: State, run: Run) {
    RunKeeps(s, run, false)
  }

  /** No step of the run sets a write aside under a name the node has published a file by, or makes up
      the name of a conflict copy. */
  ghost predicate NamesAreNew(s: State, run: Run) {
    RunKeeps(s, run, true)
  }

  ghost predicate AllKnown(s: State) {
    forall x: Side, i: nat :: IsWriteAt(s.log, i) ==> Accounted(s, x, i)
  }

  /** At every point of the run every published write is accounted for on both nodes. */
  ghost predicate AlwaysAccounted(s: State, run: Run) {
    forall k :: 0 <= k <= |run| && RunFrom(s, run[..k]).Some? ==> AllKnown(RunFrom(s, run[..k]).value)
  }

  lemma SameAt(s: State, run: Run, k: nat, unnamed: bool)
    requires k < |run| - 1
    ensures KeepsAt(s, run[..|run| - 1], k, unnamed) <==> KeepsAt(s, run, k, unnamed)
  {
    assert run[..|run| - 1][..k] == run[..k];
  }

  lemma KeepsFront(s: State, run: Run, unnamed: bool)
    requires run != [] && RunKeeps(s, run, unnamed)
    ensures RunKeeps(s, run[..|run| - 1], unnamed)
  {
    var front := run[..|run| - 1];
    forall k | 0 <= k < |front| ensures KeepsAt(s, front, k, unnamed) {
      SameAt(s, run, k, unnamed);
    }
  }

  lemma AccountedFront(s: State, run: Run)
    requires run != [] && AlwaysAccounted(s, run)
    ensures AlwaysAccounted(s, run[..|run| - 1])
  {
    var front := run[..|run| - 1];
    forall k | 0 <= k <= |front| && RunFrom(s, front[..k]).Some? ensures AllKnown(RunFrom(s, front[..k]).value) {
      assert front[..k] == run[..k];
    }
  }

  lemma {:induction false} RunInv(keys: Option<Keys>, s: State, run: Run, since: nat, unnamed: bool)
    requires CountInv(s) && ChainInv(keys, s) && Inv(s, since, unnamed)
    requires WritesOnly(run, since) && RunFrom(s, run).Some? && RunKeeps(s, run, unnamed)
    ensures Inv(RunFrom(s, run).value, since, unnamed)
  {
    if run != [] {
      var front := run[..|run| - 1];
      KeepsFront(s, run, unnamed);
      RunInv(keys, s, front, since, unnamed);
      RunCounts(s, front);
      RunChains(keys, s, front);
      assert KeepsAt(s, run, |run| - 1, unnamed);
      StepInv(keys, RunFrom(s, front).value, run[|run| - 1].0, run[|run| - 1].1, since, unnamed);
    }
  }

  lemma StartInv(ida: MachineId, idb: MachineId, fa: Files, fb: Files, keys: Option<Keys>, since: nat, unnamed: bool)
    requires ida != idb && (unnamed ==> NoCopies(fa, ida, since) && NoCopies(fb, idb, since))
    ensures var s := Start(ida, idb, fa, fb, keys); CountInv(s) && ChainInv(keys, s) && Inv(s, since, unnamed)
  {
    StartCounts(ida, idb, fa, fb, keys);
    var s := Start(ida, idb, fa, fb, keys);
    forall x: Side ensures SideInv(s, x, since, unnamed) {
      assert unnamed ==> CopiesFromPeer(s, x, since);
    }
  }

  lemma {:induction false} KeptAtEveryPoint(keys: Option<Keys>, s: State, run: Run)
    requires CountInv(s) && ChainInv(keys, s) && Inv(s, 0, false)
    requires WritesOnly(run, 0) && RunFrom(s, run).Some? && NeverOverwrites(s, run)
    ensures AlwaysAccounted(s, run)
  {
    RunInv(keys, s, run, 0, false);
    KnownHere(RunFrom(s, run).value);
    assert run[..|run|] == run;
    if run != [] {
      var front := run[..|run| - 1];
      KeepsFront(s, run, false);
      KeptAtEveryPoint(keys, s, front);
      forall k | 0 <= k <= |run| && RunFrom(s, run[..k]).Some? ensures AllKnown(RunFrom(s, run[..k]).value) {
        assert k < |run| ==> front[..k] == run[..k];
      }
    }
  }

  lemma KnownHere(s: State)
    requires Inv(s, 0, false)
    ensures AllKnown(s)
  {
    forall x: Side, i: nat | IsWriteAt(s.log, i) ensures Accounted(s, x, i) {
      assert SideInv(s, x, 0, false);
    }
  }

  lemma LostNow(keys: Option<Keys>, s: State, x: Side, step: Step, i: nat)
    requires CountInv(s) && ChainInv(keys, s) && AsideInv(s, x, 0)
    requires Next(s, x, step).Some? && Overwrites(s, x, step, i)
    ensures !AllKnown(Next(s, x, step).value)
  {
    var node, outcome := PeerWriteStep(keys, s, x, step.now);
    if OverwritesCopy(s, x, step, i) {
      assert AsideAs(s, x, 0, i);
      CopyIsLost(s, x, step.now, node, i);
    } else {
      PublishedIsLost(s, x, step.now, node, i, 0);
    }
  }

  lemma {:induction false} KnownMeansKept(keys: Option<Keys>, s: State, run: Run)
    requires CountInv(s) && ChainInv(keys, s) && Inv(s, 0, false)
    requires WritesOnly(run, 0) && RunFrom(s, run).Some? && AlwaysAccounted(s, run)
    ensures NeverOverwrites(s, run)
  {
    if run != [] {
      var front, last := run[..|run| - 1], run[|run| - 1];
      AccountedFront(s, run);
      KnownMeansKept(keys, s, front);
      RunInv(keys, s, front, 0, false);
      RunCounts(s, front);
      RunChains(keys, s, front);
      var before := RunFrom(s, front).value;
      assert SideInv(before, last.0, 0, false);
      assert run[..|run|] == run;
      forall i: nat ensures !Overwrites(before, last.0, last.1, i) {
        if Overwrites(before, last.0, last.1, i) {
          LostNow(keys, before, last.0, last.1, i);
        }
      }
      assert KeepsAt(s, run, |run| - 1, false);
      KeepsOneMore(s, run, false);
    }
  }

  lemma KeepsOneMore(s: State, run: Run, unnamed: bool)
    requires run != [] && RunKeeps(s, run[..|run| - 1], unnamed) && KeepsAt(s, run, |run| - 1, unnamed)
    ensures RunKeeps(s, run, unnamed)
  {
    var front := run[..|run| - 1];
    forall k | 0 <= k < |run| ensures KeepsAt(s, run, k, unnamed) {
      if k < |front| {
        SameAt(s, run, k, unnamed);
      }
    }
  }

  /** In every run of writes: at every point each published write is, on each node, in flight, the
      current content, changed locally since, superseded by a write whose author had it, or kept from
      its conflict file - exactly as long as no delivery replaces the last trace of one: by being
      applied over its unreported conflict copy, or by being set aside over the published file. */
  lemma LostExactlyByOverwriting(ida: MachineId, idb: MachineId, fa: Files, fb: Files, keys: Option<Keys>, run: Run)
    requires ida != idb && WritesOnly(run, 0) && RunFrom(Start(ida, idb, fa, fb, keys), run).Some?
    ensures var s := Start(ida, idb, fa, fb, keys); AlwaysAccounted(s, run) <==> NeverOverwrites(s, run)
  {
    StartInv(ida, idb, fa, fb, keys, 0, false);
    if NeverOverwrites(Start(ida, idb, fa, fb, keys), run) {
      KeptAtEveryPoint(keys, Start(ida, idb, fa, fb, keys), run);
    } else if AlwaysAccounted(Start(ida, idb, fa, fb, keys), run) {
      KnownMeansKept(keys, Start(ida, idb, fa, fb, keys), run);
    }
  }

  /** And that never happens while conflict names are new: each write is then accounted for on each
      node. A name can be taken only if one path is in conflict twice within one second. */
  lemma NothingIsLost(ida: MachineId, idb: MachineId, fa: Files, fb: Files, keys: Option<Keys>, run: Run,
                      since: nat, x: Side, i: nat)
    requires ida != idb && NoCopies(fa, ida, since) && NoCopies(fb, idb, since)
    requires WritesOnly(run, since) && RunFrom(Start(ida, idb, fa, fb, keys), run).Some?
    requires NamesAreNew(Start(ida, idb, fa, fb, keys), run)
    requires IsWriteAt(RunFrom(Start(ida, idb, fa, fb, keys), run).value.log, i)
    ensures Accounted(RunFrom(Start(ida, idb, fa, fb, keys), run).value, x, i)
  {
    StartInv(ida, idb, fa, fb, keys, since, true);
    RunInv(keys, Start(ida, idb, fa, fb, keys), run, since, true);
    var s := RunFrom(Start(ida, idb, fa, fb, keys), run).value;
    assert SideInv(s, x, since, true);
    assert AccountedFor(s, x, i, true);
  }

  predicate AtRest(s: State) {
    && s.a.cursor == s.b.cursor == |s.log|
    && s.a.edited == s.b.edited == {}
  }

  /** At rest, the last write of a path is in place on its author, and on the peer it is in place, or
      kept from its conflict file: there, edited by the user, or published again from there. */
  lemma LastWriteAtRest(ida: MachineId, idb: MachineId, fa: Files, fb: Files, keys: Option<Keys>, run: Run,
                        since: nat, i: nat)
    requires ida != idb && NoCopies(fa, ida, since) && NoCopies(fb, idb, since)
    requires WritesOnly(run, since) && RunFrom(Start(ida, idb, fa, fb, keys), run).Some?
    requires NamesAreNew(Start(ida, idb, fa, fb, keys), run)
    requires var s := RunFrom(Start(ida, idb, fa, fb, keys), run).value;
      && AtRest(s) && IsWriteAt(s.log, i)
      && (forall j: nat :: i < j && IsWriteAt(s.log, j) ==> s.log[j].ev.path != s.log[i].ev.path)
    ensures var s := RunFrom(Start(ida, idb, fa, fb, keys), run).value;
      var y := s.log[i].author;
      && Current(s, y, i)
      && (Current(s, y.Other(), i) || InConflictFile(s, y.Other(), i, false))
  {
    var s := RunFrom(Start(ida, idb, fa, fb, keys), run).value;
    var y := s.log[i].author;
    NothingIsLost(ida, idb, fa, fb, keys, run, since, y, i);
    NothingIsLost(ida, idb, fa, fb, keys, run, since, y.Other(), i);
    RunInv(keys, Start(ida, idb, fa, fb, keys), run, since, true) by {
      StartInv(ida, idb, fa, fb, keys, since, true);
    }
    assert SideInv(s, y, since, true);
    assert i in s.Of(y).aside ==> AsideAs(s, y, since, i);
    assert y.Other().Other() == y;
  }

  /** Only published writes are protected. What a node holds at the path of a delivered write, edited
      or not, survives exactly when the author had missed a write this node published for the path:
      an edit the watcher has still to report is overwritten. */
  lemma LocalContentSurvives(keys: Option<Keys>, s: State, x: Side, now: nat)
    requires CountInv(s) && ChainInv(keys, s) && NextIsPeerWrite(s, x) && Next(s, x, Deliver(now)).Some?
    requires s.log[s.Of(x).cursor].ev.path in s.Of(x).node.files
    ensures var r, before := s.log[s.Of(x).cursor], s.Of(x).node.files;
      var after := Next(s, x, Deliver(now)).value.Of(x).node.files;
      && FileIs(after, r.ev.path, if AuthorHadAll(s.log, r, x, r.ev.path) then PlainOf(r.ev) else before[r.ev.path])
  {
    var r := s.log[s.Of(x).cursor];
    var node, outcome := PeerWriteStep(keys, s, x, now);
    assert Last(ConflictPath(r.ev.path, s.Id(x.Other()), now)) == Aside(Last(r.ev.path), s.Id(x.Other()), now);
  }
}
