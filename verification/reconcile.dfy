/** The initial reconciliation (internal/syncfs/reconcile.go): both ends finish with the union. */
module Reconciliation {
  import opened Outcomes
  import opened Paths
  import opened Version
  import opened Events
  import opened Bridge

  // ---- Manifests ----

  /** A manifest that lists every file. */
  function ScanManifest(files: Files): Manifest {
    map p | p in files :: ContentHash(files[p])
  }

  /** What `have` holds that `want` lacks, or holds with another hash. */
  predicate Differs(have: Manifest, want: Manifest, p: Path) {
    p in have && (p !in want || want[p] != have[p])
  }

  predicate NoRepeats(ps: seq<Path>) {
    forall i, j :: 0 <= i < j < |ps| ==> ps[i] != ps[j]
  }

  /** `ps` lists, in some order and once each, the paths to push. */
  ghost predicate IsDiff(ps: seq<Path>, have: Manifest, want: Manifest) {
    NoRepeats(ps) && forall p :: p in ps <==> Differs(have, want, p)
  }

  method DiffPaths(have: Manifest, want: Manifest) returns (out: seq<Path>)
    ensures IsDiff(out, have, want)
  {
    out := [];
    var todo := have.Keys;
    while todo != {}
      invariant todo <= have.Keys && NoRepeats(out)
      invariant forall p :: p in out <==> Differs(have, want, p) && p !in todo
      decreases todo
    {
      var p :| p in todo;
      if p !in want || want[p] != have[p] {
        out := out + [p];
      }
      todo := todo - {p};
    }
  }

  // ---- Pushing and draining, on values ----

  /** The node after pushing `ps`; a path that has vanished is passed over. */
  function Pushed(n: Node, ps: seq<Path>): Node {
    if ps == [] then n
    else
      var before, p := Pushed(n, ps[..|ps| - 1]), ps[|ps| - 1];
      if p in before.files then Wrote(before, p) else before
  }

  function PushLog(n: Node, ps: seq<Path>): seq<Event> {
    if ps == [] then []
    else
      var before, p := Pushed(n, ps[..|ps| - 1]), ps[|ps| - 1];
      PushLog(n, ps[..|ps| - 1]) + if p in before.files then [WriteEvent(before, p)] else []
  }

  /** A message of the stream and the second it is processed at. */
  type Message = (Event, nat)

  datatype End = Done | Waiting | Unexpected(ev: Event) | Failed(error: SessionError)

  /** drainUntilReconcileDone over what the stream still holds: where the node ends up, and why. */
  function Drain(n: Node, msgs: seq<Message>): (Node, End)
    decreases |msgs|
  {
    if msgs == [] then (n, Waiting)
    else
      var ev := msgs[0].0;
      if ev.origin == n.id then Drain(n, msgs[1..])
      else if ev.ReconcileDone? then (n, Done)
      else if !ev.Write? then (n, Unexpected(ev))
      else
        match Received(n, ev, msgs[0].1)
        case Err(e) => (AfterFailure(n, ev), Failed(e))
        case Ok((n', _)) => Drain(n', msgs[1..])
  }

  /** The same over what fetches bring. */
  function DrainFetched(n: Node, fetched: seq<Fetched>): (Node, End)
    decreases |fetched|
  {
    if fetched == [] then (n, Waiting)
    else
      match fetched[0]
      case NoFetch => (n, Failed(FetchFailed))
      case Malformed => DrainFetched(n, fetched[1..])
      case Arrives(ev, now, acked) =>
        if ev.origin == n.id then DrainFetched(n, fetched[1..])
        else if ev.ReconcileDone? then (n, Done)
        else if !ev.Write? then (n, Unexpected(ev))
        else
          match Received(n, ev, now)
          case Err(e) => (AfterFailure(n, ev), Failed(e))
          case Ok((n', _)) => if acked then DrainFetched(n', fetched[1..]) else (n', Failed(AckFailed))
  }

  function MessagesOf(fetched: seq<Fetched>): seq<Message> {
    if fetched == [] then []
    else (if fetched[0].Arrives? then [(fetched[0].ev, fetched[0].now)] else []) + MessagesOf(fetched[1..])
  }

  /** While fetches and acknowledgements succeed, the drain is that of the messages that parse. */
  lemma {:induction false} DrainsWhatParses(n: Node, fetched: seq<Fetched>)
    requires forall f :: f in fetched ==> !f.NoFetch? && (f.Arrives? ==> f.acked)
    ensures DrainFetched(n, fetched) == Drain(n, MessagesOf(fetched))
    decreases |fetched|
  {
    if fetched != [] {
      var f, rest := fetched[0], MessagesOf(fetched[1..]);
      assert f in fetched;
      DrainsWhatParses(n, fetched[1..]);
      if f.Arrives? {
        assert MessagesOf(fetched)[0] == (f.ev, f.now) && MessagesOf(fetched)[1..] == rest;
        if Received(n, f.ev, f.now).Ok? {
          DrainsWhatParses(Received(n, f.ev, f.now).value.0, fetched[1..]);
        }
      } else {
        assert MessagesOf(fetched) == rest;
      }
    }
  }

  lemma {:induction false} DrainedInTurn(n: Node, a: seq<Fetched>, b: seq<Fetched>)
    ensures DrainFetched(n, a + b)
            == if DrainFetched(n, a).1 == Waiting then DrainFetched(DrainFetched(n, a).0, b) else DrainFetched(n, a)
    decreases |a|
  {
    if a == [] {
      assert a + b == b;
    } else {
      assert (a + b)[0] == a[0] && (a + b)[1..] == a[1..] + b;
      DrainedInTurn(n, a[1..], b);
      if a[0].Arrives? && Received(n, a[0].ev, a[0].now).Ok? {
        DrainedInTurn(Received(n, a[0].ev, a[0].now).value.0, a[1..], b);
      }
    }
  }

  /** A failing fetch ends the drain where it stands; a write of the peer that is not acknowledged ends it after
      it has been applied; and what would have come later makes no difference. */
  lemma FailuresEndTheDrain(n: Node, before: seq<Fetched>, ev: Event, now: nat, later: seq<Fetched>)
    requires DrainFetched(n, before).1 == Waiting && ev.Write? && ev.origin != DrainFetched(n, before).0.id
    ensures var at := DrainFetched(n, before).0;
      && DrainFetched(n, before + ([NoFetch] + later)) == (at, Failed(FetchFailed))
      && var r := Received(at, ev, now);
      DrainFetched(n, before + ([Arrives(ev, now, false)] + later))
      == if r.Err? then (AfterFailure(at, ev), Failed(r.error)) else (r.value.0, Failed(AckFailed))
  {
    DrainedInTurn(n, before, [NoFetch] + later);
    DrainedInTurn(n, before, [Arrives(ev, now, false)] + later);
  }

  /** awaitControl for the peer's manifest, with what is left to fetch: own messages and those that do not
      parse are passed over, and anything else of the peer's ends the wait. */
  function Awaited(peer: MachineId, fetched: seq<Fetched>): (Result<Manifest, End>, seq<Fetched>)
    decreases |fetched|
  {
    if fetched == [] then (Err(Waiting), [])
    else
      match fetched[0]
      case NoFetch => (Err(Failed(FetchFailed)), fetched[1..])
      case Malformed => Awaited(peer, fetched[1..])
      case Arrives(ev, _, acked) =>
        if ev.origin != peer then Awaited(peer, fetched[1..])
        else if !ev.OpManifest? then (Err(Unexpected(ev)), fetched[1..])
        else if !acked then (Err(Failed(AckFailed)), fetched[1..])
        else (Ok(ev.manifest), fetched[1..])
  }

  /** A manifest that is awaited comes from the peer, and nothing of the peer's comes before it. */
  lemma {:induction false} AwaitedIsFirst(peer: MachineId, fetched: seq<Fetched>) returns (k: nat)
    requires Awaited(peer, fetched).0.Ok?
    ensures k < |fetched| && Awaited(peer, fetched).1 == fetched[k + 1..]
    ensures fetched[k].Arrives? && fetched[k].ev == OpManifest(peer, Awaited(peer, fetched).0.value)
    ensures forall i :: 0 <= i < k ==> fetched[i].Malformed? || (fetched[i].Arrives? && fetched[i].ev.origin != peer)
    decreases |fetched|
  {
    if fetched[0].Malformed? || fetched[0].ev.origin != peer {
      var j := AwaitedIsFirst(peer, fetched[1..]);
      k := j + 1;
    } else {
      k := 0;
    }
  }

  /** Own messages, and those that do not parse. */
  predicate PassedOver(peer: MachineId, fetched: seq<Fetched>) {
    forall f :: f in fetched ==> f.Malformed? || (f.Arrives? && f.ev.origin != peer)
  }

  lemma {:induction false} AwaitedInTurn(peer: MachineId, a: seq<Fetched>, b: seq<Fetched>)
    requires PassedOver(peer, a)
    ensures Awaited(peer, a + b) == Awaited(peer, b)
    decreases |a|
  {
    if a == [] {
      assert a + b == b;
    } else {
      assert (a + b)[0] == a[0] && (a + b)[1..] == a[1..] + b && a[0] in a;
      AwaitedInTurn(peer, a[1..], b);
    }
  }

  /** What ends the wait first decides it: a failing fetch, the peer's manifest if it can be acknowledged, or
      another message of the peer's. */
  lemma FirstDecidesTheWait(peer: MachineId, before: seq<Fetched>, ev: Event, now: nat, acked: bool,
                            later: seq<Fetched>)
    requires PassedOver(peer, before) && ev.origin == peer
    ensures Awaited(peer, before) == (Err(Waiting), [])
    ensures Awaited(peer, before + ([NoFetch] + later)) == (Err(Failed(FetchFailed)), later)
    ensures Awaited(peer, before + ([Arrives(ev, now, acked)] + later)).1 == later
    ensures Awaited(peer, before + ([Arrives(ev, now, acked)] + later)).0
            == if !ev.OpManifest? then Err(Unexpected(ev))
               else if acked then Ok(ev.manifest) else Err(Failed(AckFailed))
  {
    AwaitedInTurn(peer, before, []);
    assert before + [] == before;
    AwaitedInTurn(peer, before, [NoFetch] + later);
    AwaitedInTurn(peer, before, [Arrives(ev, now, acked)] + later);
    assert ([NoFetch] + later)[1..] == later && ([Arrives(ev, now, acked)] + later)[1..] == later;
  }

  // ---- The same on the objects the code updates ----

  method PushAll(id: MachineId, ps: seq<Path>, disk: Disk, versions: VersionStore, enc: Encryption?)
    returns (published: seq<Event>)
    requires enc != null ==> enc.sendChain != enc.recvChain
    modifies versions, Footprint(enc)
    ensures forall guard: Guard ::
      var before := Node(id, disk.files, old(versions.byPath), guard, old(EncState(enc)));
      && published == PushLog(before, ps)
      && Node(id, disk.files, versions.byPath, guard, EncState(enc)) == Pushed(before, ps)
  {
    published := [];
    for i := 0 to |ps|
      invariant forall guard: Guard ::
        var before := Node(id, disk.files, old(versions.byPath), guard, old(EncState(enc)));
        && published == PushLog(before, ps[..i])
        && Node(id, disk.files, versions.byPath, guard, EncState(enc)) == Pushed(before, ps[..i])
    {
      var ev := PushReconciled(id, ps[i], disk, versions, enc);
      assert ps[..i + 1][..i] == ps[..i];
      published := published + if ev.Some? then [ev.value] else [];
    }
    assert ps[..|ps|] == ps;
  }

  method DrainUntilReconcileDone(id: MachineId, fetched: seq<Fetched>, disk: Disk, versions: VersionStore,
                                 echo: EchoGuard, enc: Encryption?)
    returns (end: End)
    requires enc != null ==> enc.sendChain != enc.recvChain
    modifies disk, versions, echo, Footprint(enc)
    ensures (NodeOf(id, disk, versions, echo, enc), end)
            == DrainFetched(old(NodeOf(id, disk, versions, echo, enc)), fetched)
  {
    for i := 0 to |fetched|
      invariant DrainFetched(NodeOf(id, disk, versions, echo, enc), fetched[i..])
        == DrainFetched(old(NodeOf(id, disk, versions, echo, enc)), fetched)
    {
      assert fetched[i..][0] == fetched[i] && fetched[i..][1..] == fetched[i + 1..];
      match fetched[i] {
        case NoFetch =>
          return Failed(FetchFailed);
        case Malformed =>
        case Arrives(ev, now, acked) =>
          if ev.origin != id {
            if ev.ReconcileDone? {
              return Done;
            }
            if !ev.Write? {
              return Unexpected(ev);
            }
            var applied := ReceiveEvent(id, ev, now, disk, versions, echo, enc);
            if applied.Err? {
              return Failed(applied.error);
            }
            if !acked {
              return Failed(AckFailed);
            }
          }
      }
    }
    return Waiting;
  }

  method AwaitManifest(peer: MachineId, fetched: seq<Fetched>) returns (r: Result<Manifest, End>, next: nat)
    ensures next <= |fetched| && (r, fetched[next..]) == Awaited(peer, fetched)
  {
    for i := 0 to |fetched|
      invariant Awaited(peer, fetched[i..]) == Awaited(peer, fetched)
    {
      assert fetched[i..][0] == fetched[i] && fetched[i..][1..] == fetched[i + 1..];
      match fetched[i] {
        case NoFetch =>
          return Err(Failed(FetchFailed)), i + 1;
        case Malformed =>
        case Arrives(ev, _, acked) =>
          if ev.origin == peer {
            if !ev.OpManifest? {
              return Err(Unexpected(ev)), i + 1;
            }
            return if acked then Ok(ev.manifest) else Err(Failed(AckFailed)), i + 1;
          }
      }
    }
    return Err(Waiting), |fetched|;
  }

  /** Reconcile on one node, over what its fetches bring. `pushed` lists what was pushed. */
  method Reconcile(id: MachineId, peer: MachineId, fetched: seq<Fetched>, disk: Disk, versions: VersionStore,
                   echo: EchoGuard, enc: Encryption?)
    returns (published: seq<Event>, pushed: seq<Path>, end: End)
    requires enc != null ==> enc.sendChain != enc.recvChain
    modifies disk, versions, echo, Footprint(enc)
    ensures var (manifest, rest) := Awaited(peer, fetched);
      var before, local := old(NodeOf(id, disk, versions, echo, enc)), ScanManifest(old(disk.files));
      match manifest
      case Err(e) =>
        published == [OpManifest(id, local)] && end == e && NodeOf(id, disk, versions, echo, enc) == before
      case Ok(theirs) =>
        && IsDiff(pushed, local, theirs)
        && published == [OpManifest(id, local)] + PushLog(before, pushed) + [ReconcileDone(id)]
        && (NodeOf(id, disk, versions, echo, enc), end) == DrainFetched(Pushed(before, pushed), rest)
  {
    var local := ScanManifest(disk.files);
    published, pushed := [OpManifest(id, local)], [];
    var manifest, next := AwaitManifest(peer, fetched);
    if manifest.Err? {
      return published, pushed, manifest.error;
    }
    pushed := DiffPaths(local, manifest.value);
    ghost var guard := echo.State();
    var writes := PushAll(id, pushed, disk, versions, enc);
    assert NodeOf(id, disk, versions, echo, enc) == Node(id, disk.files, versions.byPath, guard, EncState(enc));
    published := published + writes + [ReconcileDone(id)];
    end := DrainUntilReconcileDone(id, fetched[next..], disk, versions, echo, enc);
  }
}
