/** The initial reconciliation computes the union of the two trees, on both ends. */
module Union {
  import opened Paths
  import opened Version
  import opened Events
  import opened Bridge
  import opened Reconciliation

  // ---- What pushing yields ----

  lemma {:induction false} PushedParts(n: Node, ps: seq<Path>, p: Path)
    requires NoRepeats(ps) && forall q :: q in ps ==> q in n.files
    ensures var n' := Pushed(n, ps);
      && n'.id == n.id && n'.files == n.files && n'.guard == n.guard
      && At(n'.versions, p) == (if p in ps then Bumped(At(n.versions, p), n.id) else At(n.versions, p))
      && n'.enc.Some? == n.enc.Some?
      && (n.enc.Some? ==> n'.enc.value.recv == n.enc.value.recv && n'.enc.value.ad == n.enc.value.ad)
  {
    if ps != [] {
      var front, last := ps[..|ps| - 1], ps[|ps| - 1];
      PushedParts(n, front, p);
      assert p in ps <==> p in front || p == last;
      assert last !in front;
    }
  }

  lemma {:induction false} PushLogAt(n: Node, ps: seq<Path>, i: nat)
    requires NoRepeats(ps) && (forall q :: q in ps ==> q in n.files) && i < |ps|
    ensures |PushLog(n, ps)| == |ps| && ps[i] in Pushed(n, ps[..i]).files
    ensures PushLog(n, ps)[i] == WriteEvent(Pushed(n, ps[..i]), ps[i])
  {
    var front := ps[..|ps| - 1];
    PushedParts(n, front, ps[i]);
    if front != [] {
      PushLogAt(n, front, if i < |front| then i else 0);
    }
    assert i < |front| ==> front[..i] == ps[..i];
  }

  // ---- The stream as one end sees it ----

  /** The messages that `id` does not skip as its own. */
  function FromPeer(msgs: seq<Message>, id: MachineId): seq<Message> {
    if msgs == [] then []
    else (if msgs[0].0.origin == id then [] else [msgs[0]]) + FromPeer(msgs[1..], id)
  }

  lemma {:induction false} DrainSkipsOwn(n: Node, msgs: seq<Message>)
    ensures Drain(n, msgs) == Drain(n, FromPeer(msgs, n.id))
    decreases |msgs|
  {
    if msgs != [] {
      var m, rest := msgs[0], FromPeer(msgs[1..], n.id);
      DrainSkipsOwn(n, msgs[1..]);
      if m.0.origin == n.id {
        assert [] + rest == rest;
      } else {
        assert FromPeer(msgs, n.id) == [m] + rest && ([m] + rest)[1..] == rest;
        if m.0.Write? && Received(n, m.0, m.1).Ok? {
          ReceivedParts(n, m.0, m.1);
          DrainSkipsOwn(Received(n, m.0, m.1).value.0, msgs[1..]);
        }
      }
    }
  }

  /** From the peer come exactly its pushes, processed at `times`, and then its "done". */
  ghost predicate Delivers(msgs: seq<Message>, id: MachineId, nb: Node, pb: seq<Path>, times: seq<nat>) {
    var ms := FromPeer(msgs, id);
    && |PushLog(nb, pb)| == |pb| == |times| < |ms|
    && ms[|pb|].0 == ReconcileDone(nb.id)
    && forall i :: 0 <= i < |pb| ==> ms[i] == (PushLog(nb, pb)[i], times[i])
  }

  // ---- The union ----

  /** Where the peer's file `p` lands: beside an own file of that path, else at its path. */
  function Target(fa: Files, p: Path, id: MachineId, now: nat): Path {
    if p in fa then ConflictPath(p, id, now) else p
  }

  /** `files` is `fa` and, for each of `ps`, the peer's content at its target. */
  ghost predicate Holds(files: Files, fa: Files, fb: Files, id: MachineId, ps: seq<Path>, times: seq<nat>)
    requires |ps| <= |times| && forall p :: p in ps ==> p in fb
  {
    && (forall q :: q in fa ==> q in files && files[q] == fa[q])
    && (forall i :: 0 <= i < |ps| ==>
          Target(fa, ps[i], id, times[i]) in files && files[Target(fa, ps[i], id, times[i])] == fb[ps[i]])
    && (forall q :: q in files ==> q in fa || exists i :: 0 <= i < |ps| && q == Target(fa, ps[i], id, times[i]))
  }

  /** No path of either tree is a proper prefix of another, and the conflict names are new. */
  ghost predicate Separate(fa: Files, fb: Files, id: MachineId, ps: seq<Path>, times: seq<nat>)
    requires |ps| <= |times|
  {
    && (forall x, y :: x in fa.Keys + fb.Keys && y in fa.Keys + fb.Keys ==> !(x < y))
    && (forall i, x :: 0 <= i < |ps| && x in fa.Keys + fb.Keys ==> !(ConflictPath(ps[i], id, times[i]) <= x))
  }

  lemma ConflictPrefix(x: Path, p: Path, id: MachineId, now: nat)
    requires x < ConflictPath(p, id, now)
    ensures x < p
  {
    assert ConflictPath(p, id, now)[..|x|] == Dir(p)[..|x|] == p[..|x|];
  }

  lemma FreeOfTree(fa: Files, fb: Files, id: MachineId, ps: seq<Path>, times: seq<nat>, k: nat, q: Path)
    requires k < |ps| <= |times| && Separate(fa, fb, id, ps, times) && ps[k] in fb && q in fa.Keys + fb.Keys
    ensures var t := Target(fa, ps[k], id, times[k]); !(q < t) && !(t < q) && (q == t ==> t == ps[k] && q !in fa)
  {
    var t := Target(fa, ps[k], id, times[k]);
    if t != ps[k] && q < t {
      ConflictPrefix(q, ps[k], id, times[k]);
    }
  }

  lemma FreeOfCopy(fa: Files, fb: Files, id: MachineId, ps: seq<Path>, times: seq<nat>, k: nat, i: nat)
    requires i < k < |ps| <= |times| && NoRepeats(ps) && Separate(fa, fb, id, ps, times)
    requires ps[k] in fb && ps[i] in fb
    ensures var t, q := Target(fa, ps[k], id, times[k]), ConflictPath(ps[i], id, times[i]);
      q != t && !(q < t) && !(t < q)
  {
    var t, q := Target(fa, ps[k], id, times[k]), ConflictPath(ps[i], id, times[i]);
    assert ps[k] in fa.Keys + fb.Keys && ps[i] in fa.Keys + fb.Keys;
    if t != ps[k] {
      if q < t {
        ConflictPrefix(q, ps[k], id, times[k]);
      } else if t < q {
        ConflictPrefix(t, ps[i], id, times[i]);
      } else if q == t {
        ConflictPathInjective(ps[i], ps[k], id, id, times[i], times[k]);
      }
    } else if t < q {
      ConflictPrefix(t, ps[i], id, times[i]);
    }
  }

  lemma TargetIsFree(files: Files, fa: Files, fb: Files, id: MachineId, ps: seq<Path>, times: seq<nat>, k: nat)
    requires k < |ps| <= |times| && NoRepeats(ps) && forall p :: p in ps ==> p in fb
    requires Separate(fa, fb, id, ps, times) && Holds(files, fa, fb, id, ps[..k], times)
    ensures var t := Target(fa, ps[k], id, times[k]); t !in files && !UnderFile(files, t) && !IsDirectory(files, t)
  {
    var t := Target(fa, ps[k], id, times[k]);
    forall q | q in files ensures q != t && !(q < t) && !(t < q) {
      if q in fa {
        FreeOfTree(fa, fb, id, ps, times, k, q);
      } else {
        var i :| 0 <= i < k && q == Target(fa, ps[..k][i], id, times[i]);
        FreeOfTarget(fa, fb, id, ps, times, k, i);
      }
    }
  }

  lemma FreeOfTarget(fa: Files, fb: Files, id: MachineId, ps: seq<Path>, times: seq<nat>, k: nat, i: nat)
    requires i < k < |ps| <= |times| && NoRepeats(ps) && Separate(fa, fb, id, ps, times)
    requires forall p :: p in ps ==> p in fb
    ensures var t, q := Target(fa, ps[k], id, times[k]), Target(fa, ps[i], id, times[i]);
      q != t && !(q < t) && !(t < q)
  {
    assert ps[i] in ps && ps[k] in ps;
    if ps[i] in fa {
      FreeOfCopy(fa, fb, id, ps, times, k, i);
    } else {
      FreeOfTree(fa, fb, id, ps, times, k, ps[i]);
    }
  }

  /** Node `n` can decrypt what `m` sends next. */
  predicate Mirrors(n: Node, m: Node) {
    && n.enc.Some? == m.enc.Some?
    && (n.enc.Some? ==> n.enc.value.recv == m.enc.value.send && n.enc.value.ad == m.enc.value.ad)
  }

  /** The draining node after the peer's first `k` pushes. */
  ghost predicate Midway(n: Node, na: Node, nb: Node, pb: seq<Path>, times: seq<nat>, k: nat)
    requires k <= |pb| <= |times| && forall p :: p in pb ==> p in nb.files
  {
    && n.id == na.id && Holds(n.files, na.files, nb.files, nb.id, pb[..k], times)
    && (forall j :: k <= j < |pb| ==> At(n.versions, pb[j]) == if pb[j] in na.files then map[na.id := 1] else map[])
    && Mirrors(n, Pushed(nb, pb[..k]))
  }

  lemma MirrorDecrypts(n: Node, m: Node, p: Path)
    requires Mirrors(n, m) && p in m.files
    ensures var ev := WriteEvent(m, p);
      && Decrypted(n, ev).Ok? && Decrypted(n, ev).value.1 == ev.(data := Clear(m.files[p]))
      && var n' := Decrypted(n, ev).value.0;
      n' == n.(enc := n'.enc) && Mirrors(n', Wrote(m, p))
  {
  }

  lemma PushedNext(n: Node, ps: seq<Path>, k: nat)
    requires k < |ps| && ps[k] in Pushed(n, ps[..k]).files
    ensures Pushed(n, ps[..k + 1]) == Wrote(Pushed(n, ps[..k]), ps[k])
  {
    assert ps[..k + 1][..k] == ps[..k];
  }

  /** The next push of the peer, as the draining node decrypts it. */
  lemma NextPush(n: Node, nb: Node, pb: seq<Path>, k: nat)
    requires k < |pb| && NoRepeats(pb) && forall p :: p in pb ==> p in nb.files
    requires nb.versions == map[] && Mirrors(n, Pushed(nb, pb[..k]))
    ensures |PushLog(nb, pb)| == |pb|
    ensures var ev := PushLog(nb, pb)[k];
      && ev.Write? && ev.origin == nb.id && ev.path == pb[k] && ev.version == map[nb.id := 1]
      && Decrypted(n, ev).Ok? && Decrypted(n, ev).value.1 == ev.(data := Clear(nb.files[pb[k]]))
      && Decrypted(n, ev).value.0 == n.(enc := Decrypted(n, ev).value.0.enc)
      && Mirrors(Decrypted(n, ev).value.0, Pushed(nb, pb[..k + 1]))
  {
    PushLogAt(nb, pb, k);
    assert pb[k] !in pb[..k];
    PushedParts(nb, pb[..k], pb[k]);
    MirrorDecrypts(n, Pushed(nb, pb[..k]), pb[k]);
    PushedNext(nb, pb, k);
  }

  lemma NextDecision(ida: MachineId, idb: MachineId, held: bool)
    requires ida != idb
    ensures Causal(map[idb := 1], if held then map[ida := 1] else map[]) == if held then Concurrent else AAfterB
  {
    var local: Vector := if held then map[ida := 1] else map[];
    var incoming: Vector := map[idb := 1];
    assert idb in incoming && Count(local, idb) == 0;
    if held {
      assert ida in local && Count(incoming, ida) == 0;
    }
  }

  lemma DrainOne(n: Node, na: Node, nb: Node, pb: seq<Path>, times: seq<nat>, k: nat)
    requires k < |pb| <= |times| && NoRepeats(pb) && forall p :: p in pb ==> p in nb.files
    requires na.id != nb.id && nb.versions == map[]
    requires Separate(na.files, nb.files, nb.id, pb, times) && Midway(n, na, nb, pb, times, k)
    ensures |PushLog(nb, pb)| == |pb| && PushLog(nb, pb)[k].Write? && PushLog(nb, pb)[k].origin == nb.id
    ensures var r := Received(n, PushLog(nb, pb)[k], times[k]);
      r.Ok? && Midway(r.value.0, na, nb, pb, times, k + 1)
  {
    var t := Target(na.files, pb[k], nb.id, times[k]);
    NextPush(n, nb, pb, k);
    TargetIsFree(n.files, na.files, nb.files, nb.id, pb, times, k);
    NextDecision(na.id, nb.id, pb[k] in na.files);
    var ev := PushLog(nb, pb)[k];
    var n' := ReceivedWrite(n, ev, nb.files[pb[k]], t, times[k]);
    HoldsNext(n.files, na.files, nb.files, nb.id, pb, times, k);
    forall j | k + 1 <= j < |pb|
      ensures At(n'.versions, pb[j]) == if pb[j] in na.files then map[na.id := 1] else map[]
    {
      assert pb[j] != pb[k];
    }
  }

  /** A write that decrypts and is not stale, and whose target is free, lands there. */
  lemma ReceivedWrite(n: Node, ev: Event, data: Content, t: Path, now: nat) returns (n': Node)
    requires ev.Write? && ev.origin != n.id
    requires Decrypted(n, ev).Ok? && Decrypted(n, ev).value.1 == ev.(data := Clear(data))
    requires Decrypted(n, ev).value.0 == n.(enc := Decrypted(n, ev).value.0.enc)
    requires var o := Causal(ev.version, At(n.versions, ev.path));
      (o == AAfterB && t == ev.path) || (o == Concurrent && t == ConflictPath(ev.path, ev.origin, now))
    requires !UnderFile(n.files, t) && !IsDirectory(n.files, t)
    ensures Received(n, ev, now).Ok? && n' == Received(n, ev, now).value.0
    ensures n'.id == n.id && n'.files == n.files[t := data] && n'.enc == Decrypted(n, ev).value.0.enc
    ensures n'.versions == StoreAfter(n.versions, ev.path, ev.version)
  {
    n' := Received(n, ev, now).value.0;
  }

  lemma HoldsNext(files: Files, fa: Files, fb: Files, id: MachineId, ps: seq<Path>, times: seq<nat>, k: nat)
    requires k < |ps| <= |times| && forall p :: p in ps ==> p in fb
    requires Holds(files, fa, fb, id, ps[..k], times) && Target(fa, ps[k], id, times[k]) !in files
    ensures Holds(files[Target(fa, ps[k], id, times[k]) := fb[ps[k]]], fa, fb, id, ps[..k + 1], times)
  {
    var t := Target(fa, ps[k], id, times[k]);
    var files' := files[t := fb[ps[k]]];
    assert ps[..k + 1] == ps[..k] + [ps[k]];
    forall q | q in files' && q !in fa
      ensures exists i :: 0 <= i < k + 1 && q == Target(fa, ps[..k + 1][i], id, times[i])
    {
      if q != t {
        var i :| 0 <= i < k && q == Target(fa, ps[..k][i], id, times[i]);
        assert q == Target(fa, ps[..k + 1][i], id, times[i]);
      } else {
        assert q == Target(fa, ps[..k + 1][k], id, times[k]);
      }
    }
  }

  lemma {:induction false} DrainRest(n: Node, na: Node, nb: Node, pb: seq<Path>, times: seq<nat>, k: nat,
                                     ms: seq<Message>)
    requires k <= |pb| == |times| && NoRepeats(pb) && forall p :: p in pb ==> p in nb.files
    requires na.id != nb.id && nb.versions == map[]
    requires Separate(na.files, nb.files, nb.id, pb, times) && Midway(n, na, nb, pb, times, k)
    requires |PushLog(nb, pb)| == |pb| < |ms| && ms[|pb|].0 == ReconcileDone(nb.id)
    requires forall i :: 0 <= i < |pb| ==> ms[i] == (PushLog(nb, pb)[i], times[i])
    ensures var (n', end) := Drain(n, ms[k..]); end == Done && Midway(n', na, nb, pb, times, |pb|)
    decreases |pb| - k
  {
    assert ms[k..][0] == ms[k];
    if k < |pb| {
      DrainOne(n, na, nb, pb, times, k);
      assert ms[k..][1..] == ms[k + 1..];
      DrainRest(Received(n, ms[k].0, ms[k].1).value.0, na, nb, pb, times, k + 1, ms);
    }
  }

  /** Both trees hold the path, with different contents. */
  predicate Differing(fa: Files, fb: Files, p: Path) {
    p in fa && p in fb && fa[p] != fb[p]
  }

  /** A conflict file, new to both trees, holds the peer's content of `p`. */
  predicate IsCopy(files: Files, fa: Files, fb: Files, id: MachineId, p: Path, now: nat)
    requires p in fb
  {
    var q := ConflictPath(p, id, now);
    q !in fa && q !in fb && q in files && files[q] == fb[p]
  }

  /** The outcome on one end: its own files as they were, the peer's one-sided files at their paths, the
      peer's content of each differing path in exactly one conflict copy, and nothing else. */
  ghost predicate IsUnion(files: Files, fa: Files, fb: Files, id: MachineId) {
    && (forall p :: p in fa ==> p in files && files[p] == fa[p])
    && (forall p :: p in fb && p !in fa ==> p in files && files[p] == fb[p])
    && (forall p :: Differing(fa, fb, p) ==> HasOneCopy(files, fa, fb, id, p))
    && (forall q :: q in files && q !in fa && q !in fb ==> IsSomeCopy(fa, fb, id, q))
  }

  ghost predicate HasOneCopy(files: Files, fa: Files, fb: Files, id: MachineId, p: Path)
    requires p in fb
  {
    && (exists now: nat :: IsCopy(files, fa, fb, id, p, now))
    && forall t: nat, u: nat :: IsCopy(files, fa, fb, id, p, t) && IsCopy(files, fa, fb, id, p, u) ==> t == u
  }

  ghost predicate IsSomeCopy(fa: Files, fb: Files, id: MachineId, q: Path) {
    exists p, now: nat :: Differing(fa, fb, p) && q == ConflictPath(p, id, now)
  }

  lemma DrainIsUnion(na: Node, nb: Node, pa: seq<Path>, pb: seq<Path>, times: seq<nat>, msgs: seq<Message>)
    requires na.id != nb.id && na.versions == map[] && nb.versions == map[] && Mirrors(na, nb)
    requires IsDiff(pa, ScanManifest(na.files), ScanManifest(nb.files))
    requires IsDiff(pb, ScanManifest(nb.files), ScanManifest(na.files))
    requires Delivers(msgs, na.id, nb, pb, times) && Separate(na.files, nb.files, nb.id, pb, times)
    ensures var (n, end) := Drain(Pushed(na, pa), msgs);
      end == Done && IsUnion(n.files, na.files, nb.files, nb.id)
  {
    assert forall p :: p in pb && p in na.files ==> Differs(ScanManifest(na.files), ScanManifest(nb.files), p);
    DrainHolds(na, nb, pa, pb, times, msgs);
    HoldsIsUnion(Drain(Pushed(na, pa), msgs).0.files, na.files, nb.files, nb.id, pb, times);
  }

  lemma DrainHolds(na: Node, nb: Node, pa: seq<Path>, pb: seq<Path>, times: seq<nat>, msgs: seq<Message>)
    requires na.id != nb.id && na.versions == map[] && nb.versions == map[] && Mirrors(na, nb)
    requires NoRepeats(pa) && NoRepeats(pb)
    requires (forall p :: p in pa ==> p in na.files) && (forall p :: p in pb ==> p in nb.files)
    requires forall p :: p in pb && p in na.files ==> p in pa
    requires Delivers(msgs, na.id, nb, pb, times) && Separate(na.files, nb.files, nb.id, pb, times)
    ensures var (n, end) := Drain(Pushed(na, pa), msgs);
      end == Done && Holds(n.files, na.files, nb.files, nb.id, pb, times)
  {
    var start, ms := Pushed(na, pa), FromPeer(msgs, na.id);
    PushedIsMidway(na, nb, pa, pb, times);
    PushedParts(na, pa, [Plain("")]);
    DrainSkipsOwn(start, msgs);
    DrainRest(start, na, nb, pb, times, 0, ms);
    assert ms[0..] == ms && pb[..|pb|] == pb;
  }

  lemma PushedIsMidway(na: Node, nb: Node, pa: seq<Path>, pb: seq<Path>, times: seq<nat>)
    requires |pb| <= |times| && (forall p :: p in pb ==> p in nb.files)
    requires na.versions == map[] && Mirrors(na, nb)
    requires NoRepeats(pa) && (forall p :: p in pa ==> p in na.files)
    requires forall p :: p in pb && p in na.files ==> p in pa
    ensures Midway(Pushed(na, pa), na, nb, pb, times, 0)
  {
    PushedParts(na, pa, [Plain("")]);
    assert pb[..0] == [];
    forall j | 0 <= j < |pb|
      ensures At(Pushed(na, pa).versions, pb[j]) == if pb[j] in na.files then map[na.id := 1] else map[]
    {
      PushedParts(na, pa, pb[j]);
    }
  }

  lemma HoldsIsUnion(files: Files, fa: Files, fb: Files, id: MachineId, pb: seq<Path>, times: seq<nat>)
    requires |pb| == |times| && IsDiff(pb, ScanManifest(fb), ScanManifest(fa))
    requires Separate(fa, fb, id, pb, times) && Holds(files, fa, fb, id, pb, times)
    ensures IsUnion(files, fa, fb, id)
  {
    forall p | p in fb && p !in fa ensures p in files && files[p] == fb[p] {
      assert Differs(ScanManifest(fb), ScanManifest(fa), p);
      OneSidedHeld(files, fa, fb, id, pb, times, p);
    }
    forall p | Differing(fa, fb, p) ensures HasOneCopy(files, fa, fb, id, p) {
      DifferingHasOneCopy(files, fa, fb, id, pb, times, p);
    }
    forall q | q in files && q !in fa && q !in fb ensures IsSomeCopy(fa, fb, id, q) {
      var i := OnlyCopies(files, fa, fb, id, pb, times, q);
      PushedDiffers(fa, fb, pb, pb[i]);
    }
  }

  /** What is pushed and held on both sides differs, and all that differs is pushed. */
  lemma PushedDiffers(fa: Files, fb: Files, pb: seq<Path>, p: Path)
    requires IsDiff(pb, ScanManifest(fb), ScanManifest(fa)) && p in fa && p in fb
    ensures p in pb <==> Differing(fa, fb, p)
  {
    assert p in pb <==> Differs(ScanManifest(fb), ScanManifest(fa), p);
  }

  lemma DifferingHasOneCopy(files: Files, fa: Files, fb: Files, id: MachineId, pb: seq<Path>, times: seq<nat>, p: Path)
    requires |pb| == |times| && IsDiff(pb, ScanManifest(fb), ScanManifest(fa)) && Differing(fa, fb, p)
    requires Separate(fa, fb, id, pb, times) && Holds(files, fa, fb, id, pb, times)
    ensures HasOneCopy(files, fa, fb, id, p)
  {
    PushedDiffers(fa, fb, pb, p);
    var i: nat :| i < |pb| && pb[i] == p;
    CopyHeld(files, fa, fb, id, pb, times, i);
    CopyIsNew(fa, fb, id, pb, times, i);
    assert IsCopy(files, fa, fb, id, p, times[i]);
    forall t: nat | IsCopy(files, fa, fb, id, p, t) ensures t == times[i] {
      CopyIsOf(files, fa, fb, id, pb, times, i, t);
    }
  }

  lemma CopyIsOf(files: Files, fa: Files, fb: Files, id: MachineId, pb: seq<Path>, times: seq<nat>, i: nat, t: nat)
    requires |pb| == |times| && i < |pb| && NoRepeats(pb) && (forall p :: p in pb ==> p in fb)
    requires Holds(files, fa, fb, id, pb, times) && IsCopy(files, fa, fb, id, pb[i], t)
    ensures t == times[i]
  {
    var j := OnlyCopies(files, fa, fb, id, pb, times, ConflictPath(pb[i], id, t));
    ConflictPathInjective(pb[i], pb[j], id, id, t, times[j]);
  }

  lemma CopyIsNew(fa: Files, fb: Files, id: MachineId, pb: seq<Path>, times: seq<nat>, i: nat)
    requires i < |pb| <= |times| && Separate(fa, fb, id, pb, times)
    ensures ConflictPath(pb[i], id, times[i]) !in fa && ConflictPath(pb[i], id, times[i]) !in fb
  {
    var q := ConflictPath(pb[i], id, times[i]);
    assert q <= q && (q in fa || q in fb ==> q in fa.Keys + fb.Keys);
  }

  lemma OneSidedHeld(files: Files, fa: Files, fb: Files, id: MachineId, pb: seq<Path>, times: seq<nat>, p: Path)
    requires |pb| == |times| && p in pb && p !in fa && forall p :: p in pb ==> p in fb
    requires Holds(files, fa, fb, id, pb, times)
    ensures p in files && files[p] == fb[p]
  {
    var i :| 0 <= i < |pb| && pb[i] == p;
    assert Target(fa, pb[i], id, times[i]) == p;
  }

  lemma OnlyCopies(files: Files, fa: Files, fb: Files, id: MachineId, pb: seq<Path>, times: seq<nat>, q: Path)
    returns (i: nat)
    requires |pb| == |times| && (forall p :: p in pb ==> p in fb) && Holds(files, fa, fb, id, pb, times)
    requires q in files && q !in fa && q !in fb
    ensures i < |pb| && pb[i] in fa && q == ConflictPath(pb[i], id, times[i])
  {
    i :| 0 <= i < |pb| && q == Target(fa, pb[i], id, times[i]);
    assert pb[i] in pb;
  }

  lemma CopyHeld(files: Files, fa: Files, fb: Files, id: MachineId, pb: seq<Path>, times: seq<nat>, i: nat)
    requires |pb| == |times| && i < |pb| && pb[i] in fa && forall p :: p in pb ==> p in fb
    requires Separate(fa, fb, id, pb, times) && Holds(files, fa, fb, id, pb, times)
    ensures var q := ConflictPath(pb[i], id, times[i]); q !in fa && q in files && files[q] == fb[pb[i]]
  {
    var q := ConflictPath(pb[i], id, times[i]);
    assert Target(fa, pb[i], id, times[i]) == q;
    assert q in fa ==> q in fa.Keys + fb.Keys && q <= q;
  }

  /** Reconcile on both ends, over any two trees and any order of the two streams: both finish,
      each with the union. A one-sided path is on both, an equal one is unchanged, and where the
      contents differ each end keeps its own and one conflict copy of the other's. */
  lemma ReconcileComputesUnion(na: Node, nb: Node, pa: seq<Path>, pb: seq<Path>, ta: seq<nat>, tb: seq<nat>,
                               ma: seq<Message>, mb: seq<Message>)
    requires na.id != nb.id && na.versions == map[] && nb.versions == map[] && Mirrors(na, nb) && Mirrors(nb, na)
    requires IsDiff(pa, ScanManifest(na.files), ScanManifest(nb.files))
    requires IsDiff(pb, ScanManifest(nb.files), ScanManifest(na.files))
    requires Delivers(ma, na.id, nb, pb, ta) && Delivers(mb, nb.id, na, pa, tb)
    requires Separate(na.files, nb.files, nb.id, pb, ta) && Separate(nb.files, na.files, na.id, pa, tb)
    ensures var (a, enda) := Drain(Pushed(na, pa), ma); var (b, endb) := Drain(Pushed(nb, pb), mb);
      && enda == endb == Done
      && IsUnion(a.files, na.files, nb.files, nb.id) && IsUnion(b.files, nb.files, na.files, na.id)
    ensures var a, b := Drain(Pushed(na, pa), ma).0.files, Drain(Pushed(nb, pb), mb).0.files;
      forall p :: p in na.files && p in nb.files && na.files[p] == nb.files[p] ==>
        p in a && p in b && a[p] == b[p] == na.files[p]
  {
    DrainIsUnion(na, nb, pa, pb, ta, ma);
    DrainIsUnion(nb, na, pb, pa, tb, mb);
  }
}
