/** The live steps of one node (internal/syncfs/bridge.go): publishOne and applyEvent. */
module Bridge {
  import opened Outcomes
  import opened Paths
  import opened Version
  import opened Ratchet
  import opened Events

  /** Both chains of an encrypted session, on one node. */
  datatype Chains = Chains(send: ChainState, recv: ChainState, ad: AssociatedData)

  /** Everything publishOne and applyEvent read and change on one node. */
  datatype Node = Node(id: MachineId, files: Files, versions: Store, guard: Guard, enc: Option<Chains>)

  datatype SessionError = Decryption(decrypt: DecryptError) | Application(apply: ApplyError) | FetchFailed | AckFailed

  /** What a fetch brings: an event at a second, with whether its acknowledgement will succeed; a message
      that does not parse and goes back to the broker; or a failure. */
  datatype Fetched = Arrives(ev: Event, now: nat, acked: bool) | Malformed | NoFetch

  datatype Outcome = AppliedIt | SetAside(path: Path) | Stale | Skipped

  // ---- What a step does, on values ----

  /** The write of the current content of `p`: bumped, and encrypted if the session is. */
  function WriteEvent(n: Node, p: Path): Event
    requires p in n.files
  {
    var data := n.files[p];
    var version := Bumped(At(n.versions, p), n.id);
    match n.enc
    case None => Write(n.id, p, ContentHash(data), Clear(data), version, 0)
    case Some(c) => Write(n.id, p, ContentHash(data), Cipher(Seal(c.send, data, c.ad)), version, c.send.n)
  }

  /** The node once it has published the content of `p`. */
  function Wrote(n: Node, p: Path): Node {
    n.(versions := n.versions[p := Bumped(At(n.versions, p), n.id)],
       enc := if n.enc.Some? then Some(n.enc.value.(send := Advanced(n.enc.value.send))) else None)
  }

  /** The report is recognised as an echo by this node. */
  predicate Echoes(n: Node, c: Change) {
    match c
    case Modified(p) => p in n.files && IsEchoOf(n.guard, c, ContentHash(n.files[p]))
    case _ => IsEchoOf(n.guard, c, ContentHash([]))
  }

  /** publishOne drops the report without publishing: an echo, a vanished file or a rescan. */
  predicate Drops(n: Node, c: Change) {
    c.Rescan? || (c.Modified? && c.path !in n.files) || Echoes(n, c)
  }

  function ChangeEvent(n: Node, c: Change): Event
    requires !Drops(n, c)
  {
    match c
    case Modified(p) => WriteEvent(n, p)
    case RemovedAt(p) => Remove(n.id, p)
    case RenamedTo(oldPath, p) => Rename(n.id, p, oldPath)
  }

  function Reported(n: Node, c: Change): Node {
    if Echoes(n, c) then n.(guard := Forgotten(n.guard, c))
    else if c.Modified? && c.path in n.files then Wrote(n, c.path)
    else n
  }

  /** The event with its data decrypted, and the node with its receiving chain advanced. */
  function Decrypted(n: Node, ev: Event): Result<(Node, Event), SessionError> {
    if n.enc.Some? && ev.Write? then
      if ev.data.Clear? then Err(Decryption(NotAuthentic))
      else
        var c := n.enc.value;
        match Open(c.recv, ev.data.sealed, c.ad, ev.sequence)
        case Ok(plain) => Ok((n.(enc := Some(c.(recv := Advanced(c.recv)))), ev.(data := Clear(plain))))
        case Err(e) => Err(Decryption(e))
    else Ok((n, ev))
  }

  /** applyEvent, at second `now`. */
  function AppliedEvent(n: Node, ev: Event, now: nat): Result<(Node, Outcome), SessionError> {
    if ev.Write? then
      var local := At(n.versions, ev.path);
      var n' := n.(versions := StoreAfter(n.versions, ev.path, ev.version));
      match Causal(ev.version, local)
      case Concurrent =>
        if ev.data.Cipher? then Err(Application(UnknownOp)) else
        (match ApplyConflict(n.files, ev.path, ev.origin, ev.data.data, now)
         case Err(e) => Err(Application(e))
         case Ok(files) => Ok((n'.(files := files), SetAside(ConflictPath(ev.path, ev.origin, now)))))
      case AAfterB => AppliedCleanly(n', ev)
      case _ => Ok((n', Stale))
    else AppliedCleanly(n, ev)
  }

  function AppliedCleanly(n: Node, ev: Event): Result<(Node, Outcome), SessionError> {
    match Applied(n.files, ev)
    case Err(e) => Err(Application(e))
    case Ok(files) => Ok((n.(files := files, guard := Marked(n.guard, ev)), AppliedIt))
  }

  /** One message of ReceiveChanges. */
  function Received(n: Node, ev: Event, now: nat): Result<(Node, Outcome), SessionError> {
    if ev.origin == n.id || ev.Bootstrap? || ev.BootstrapAck? then Ok((n, Skipped))
    else
      match Decrypted(n, ev)
      case Err(e) => Err(e)
      case Ok(pair) => AppliedEvent(pair.0, pair.1, now)
  }

  /** The node when Received has failed: the chain has moved if decryption succeeded, and a write has
      joined the version store, but files and guard are as they were. */
  function AfterFailure(n: Node, ev: Event): Node {
    match Decrypted(n, ev)
    case Err(_) => n
    case Ok((n1, _)) => n1.(versions := VersionsAfter(n1.versions, ev))
  }

  function VersionsAfter(s: Store, ev: Event): Store {
    if ev.Write? then StoreAfter(s, ev.path, ev.version) else s
  }

  /** What a received mutation does to the parts of a node that do not depend on the files. */
  lemma ReceivedParts(n: Node, ev: Event, now: nat)
    requires IsMutation(ev) && ev.origin != n.id && Received(n, ev, now).Ok?
    ensures var n' := Received(n, ev, now).value.0;
      && n'.id == n.id && Decrypted(n, ev).Ok? && n'.enc == Decrypted(n, ev).value.0.enc
      && n'.versions == if ev.Write? then StoreAfter(n.versions, ev.path, ev.version) else n.versions
  {
    var pair := Decrypted(n, ev).value;
    AppliedParts(pair.0, pair.1, now);
  }

  lemma AppliedParts(n: Node, ev: Event, now: nat)
    requires AppliedEvent(n, ev, now).Ok?
    ensures var n' := AppliedEvent(n, ev, now).value.0;
      && n'.id == n.id && n'.enc == n.enc
      && n'.versions == if ev.Write? then StoreAfter(n.versions, ev.path, ev.version) else n.versions
  {
    if ev.Write? && Causal(ev.version, At(n.versions, ev.path)).AAfterB? {
      CleanParts(n.(versions := StoreAfter(n.versions, ev.path, ev.version)), ev);
    } else if !ev.Write? {
      CleanParts(n, ev);
    }
  }

  lemma CleanParts(n: Node, ev: Event)
    requires AppliedCleanly(n, ev).Ok?
    ensures var n' := AppliedCleanly(n, ev).value.0; n'.id == n.id && n'.enc == n.enc && n'.versions == n.versions
  {
  }

  /** What a received write leaves on disk, once its plaintext is known. */
  lemma ReceivedFiles(n: Node, ev: Event, plain: Content, now: nat)
    requires ev.Write? && ev.origin != n.id && Received(n, ev, now).Ok?
    requires Decrypted(n, ev).Ok? && Decrypted(n, ev).value.1 == ev.(data := Clear(plain))
    ensures var (node, outcome) := Received(n, ev, now).value;
      && node.id == n.id
      && (outcome.AppliedIt? ==> node.files == n.files[ev.path := plain])
      && (outcome.SetAside? ==>
            outcome.path == ConflictPath(ev.path, ev.origin, now) && node.files == n.files[outcome.path := plain])
  {
  }

  /** What a received removal leaves on disk: neither the path nor anything below it, and every other file
      as it was. */
  lemma ReceivedRemoval(n: Node, p: Path, origin: MachineId, now: nat, q: Path)
    requires origin != n.id
    ensures var r := Received(n, Remove(origin, p), now);
      && r.Ok? && r.value.1 == AppliedIt
      && (q in r.value.0.files <==> q in n.files && q != p && !(p < q))
      && (q in r.value.0.files ==> r.value.0.files[q] == n.files[q])
      && r.value.0.guard == n.guard.(entries := n.guard.entries[p := Removed])
  {
    RemoveTakes(n.files, p, q);
  }

  /** What a received rename leaves on disk: what was at or below the old path is at or below the new one,
      and every other file but the one replaced is as it was. */
  lemma ReceivedRename(n: Node, from: Path, to: Path, origin: MachineId, now: nat, q: Path)
    requires origin != n.id && IsTree(n.files) && from != to
    ensures var r := Received(n, Rename(origin, to, from), now);
      && (r.Ok? <==> ApplyRename(n.files, from, to).Ok?)
      && (r.Ok? ==>
            && r.value.1 == AppliedIt
            && (q in r.value.0.files <==> Origin(q, from, to) in n.files && (from <= q ==> to <= q))
            && (q in r.value.0.files ==> r.value.0.files[q] == n.files[Origin(q, from, to)])
            && r.value.0.guard == n.guard.(renamed := n.guard.renamed[to := from]))
  {
    if ApplyRename(n.files, from, to).Ok? {
      RenameMoves(n.files, from, to, q);
    }
  }

  /** Whatever is received, no file ever stands above another. */
  lemma ReceivedKeepsTree(n: Node, ev: Event, now: nat)
    requires IsTree(n.files) && Received(n, ev, now).Ok?
    ensures IsTree(Received(n, ev, now).value.0.files)
  {
    match ev
    case Write(_, p, _, _, _, _) =>
      if ev.origin != n.id {
        var clear := Decrypted(n, ev).value.1;
        if clear.data.Clear? {
          WriteKeepsTree(n.files, p, clear.data.data);
          WriteKeepsTree(n.files, ConflictPath(p, ev.origin, now), clear.data.data);
        }
      }
    case Remove(_, p) => RemoveTakes(n.files, p, p);
    case Rename(_, p, o) =>
      if ev.origin != n.id {
        RenameKeepsTree(n.files, o, p);
      }
    case _ =>
  }

  /** A write that cannot be applied has joined the version store all the same: when it comes again, it is taken
      for one that was, and dropped, or refused because its place on the chain is spent. */
  lemma FailedWriteIsSeen(n: Node, ev: Event, now: nat, later: nat)
    requires ev.Write? && ev.origin != n.id && Received(n, ev, now).Err? && Decrypted(n, ev).Ok?
    ensures var after := AfterFailure(n, ev);
      && after.id == n.id && after.files == n.files && after.guard == n.guard
      && after.enc == Decrypted(n, ev).value.0.enc
      && IsJoin(At(after.versions, ev.path), At(n.versions, ev.path), ev.version)
      && (n.enc.None? ==> Received(after, ev, later).Ok? && Received(after, ev, later).value.1 == Stale
                          && Received(after, ev, later).value.0.files == n.files)
  {
    AdoptedIsJoin(At(n.versions, ev.path), ev.version);
    var joined := At(AfterFailure(n, ev).versions, ev.path);
    LeqCounts(ev.version, joined);
    LeqCounts(joined, ev.version);
  }

  /** A write that cannot be decrypted has changed nothing. */
  lemma UndecryptableChangesNothing(n: Node, ev: Event)
    requires Decrypted(n, ev).Err?
    ensures AfterFailure(n, ev) == n
  {
  }

  // ---- The same steps on the objects the code updates ----

  class Disk {
    var files: Files

    constructor (files: Files)
      ensures this.files == files
    {
      this.files := files;
    }
  }

  class Encryption {
    const sendChain: Chain
    const recvChain: Chain
    const ad: AssociatedData

    constructor (sendChain: Chain, recvChain: Chain, ad: AssociatedData)
      requires sendChain != recvChain
      ensures this.sendChain == sendChain && this.recvChain == recvChain && this.ad == ad
    {
      this.sendChain, this.recvChain, this.ad := sendChain, recvChain, ad;
    }

    function State(): Chains
      reads sendChain, recvChain
    {
      Chains(sendChain.State(), recvChain.State(), ad)
    }
  }

  /** What a nil or non-nil *Encryption may change. */
  function Footprint(enc: Encryption?): set<object> {
    if enc == null then {} else {enc.sendChain, enc.recvChain}
  }

  function EncState(enc: Encryption?): Option<Chains>
    reads Footprint(enc)
  {
    if enc == null then None else Some(enc.State())
  }

  function NodeOf(id: MachineId, disk: Disk, versions: VersionStore, echo: EchoGuard, enc: Encryption?): Node
    reads disk, versions, echo, Footprint(enc)
  {
    Node(id, disk.files, versions.byPath, echo.State(), EncState(enc))
  }

  method PublishOne(id: MachineId, c: Change, disk: Disk, versions: VersionStore, echo: EchoGuard, enc: Encryption?)
    returns (published: Option<Event>)
    requires enc != null ==> enc.sendChain != enc.recvChain
    modifies versions, echo, Footprint(enc)
    ensures NodeOf(id, disk, versions, echo, enc) == Reported(old(NodeOf(id, disk, versions, echo, enc)), c)
    ensures published == if Drops(old(NodeOf(id, disk, versions, echo, enc)), c) then None
                         else Some(ChangeEvent(old(NodeOf(id, disk, versions, echo, enc)), c))
  {
    match c {
      case Rescan =>
        return None;
      case Modified(p) =>
        if p !in disk.files {
          return None;
        }
        var isEcho := echo.IsEcho(p, ContentHash(disk.files[p]));
        if isEcho {
          return None;
        }
        var ev := PushReconciled(id, p, disk, versions, enc);
        return ev;
      case RemovedAt(p) =>
        var isEcho := echo.IsEchoRemove(p);
        return if isEcho then None else Some(Remove(id, p));
      case RenamedTo(oldPath, p) =>
        var isEcho := echo.IsEchoRename(oldPath, p);
        return if isEcho then None else Some(Rename(id, p, oldPath));
    }
  }

  /** pushReconciled, which is also publishOne's write: read, bump, encrypt. */
  method PushReconciled(id: MachineId, p: Path, disk: Disk, versions: VersionStore, enc: Encryption?)
    returns (published: Option<Event>)
    requires enc != null ==> enc.sendChain != enc.recvChain
    modifies versions, Footprint(enc)
    ensures forall guard: Guard ::
      var before := Node(id, disk.files, old(versions.byPath), guard, old(EncState(enc)));
      && published == (if p in before.files then Some(WriteEvent(before, p)) else None)
      && Node(id, disk.files, versions.byPath, guard, EncState(enc)) ==
           if p in before.files then Wrote(before, p) else before
  {
    if p !in disk.files {
      return None;
    }
    var data := disk.files[p];
    var version := versions.Bump(p, id);
    var ev := Write(id, p, ContentHash(data), Clear(data), version, 0);
    if enc != null {
      var ciphertext, sequence := enc.sendChain.Encrypt(data, enc.ad);
      ev := ev.(data := Cipher(ciphertext), sequence := sequence);
    }
    return Some(ev);
  }

  /** applyEvent on an event whose data is already decrypted. */
  method ApplyEvent(id: MachineId, ev: Event, now: nat, disk: Disk, versions: VersionStore, echo: EchoGuard)
    returns (r: Result<Outcome, SessionError>)
    modifies disk, versions, echo
    ensures forall enc: Option<Chains> ::
      var before := Node(id, old(disk.files), old(versions.byPath), old(echo.State()), enc);
      var after := AppliedEvent(before, ev, now);
      && (r.Ok? <==> after.Ok?)
      && (r.Ok? ==> after.value == (Node(id, disk.files, versions.byPath, echo.State(), enc), r.value))
      && (r.Err? ==> after.error == r.error && disk.files == before.files && echo.State() == before.guard)
      && (r.Err? ==> versions.byPath == VersionsAfter(before.versions, ev))
  {
    if ev.Write? {
      var safe, conflict := versions.Reconcile(ev.path, ev.version);
      if conflict {
        if ev.data.Cipher? {
          return Err(Application(UnknownOp));
        }
        var target := ConflictPath(ev.path, ev.origin, now);
        var written := ApplyWrite(disk.files, target, ev.data.data);
        if written.Err? {
          return Err(Application(written.error));
        }
        disk.files := written.value;
        return Ok(SetAside(target));
      }
      if !safe {
        return Ok(Stale);
      }
    }
    var applied := Applied(disk.files, ev);
    if applied.Err? {
      return Err(Application(applied.error));
    }
    disk.files := applied.value;
    match ev {
      case Write(_, path, hash, _, _, _) => echo.MarkApplied(path, hash);
      case Remove(_, path) => echo.MarkRemoved(path);
      case Rename(_, path, oldPath) => echo.MarkRenamed(oldPath, path);
      case _ =>
    }
    return Ok(AppliedIt);
  }

  /** One message of a receive loop: own messages and bootstrap messages are passed over, a write is
      decrypted before anything is decided about it. */
  method ReceiveEvent(id: MachineId, ev: Event, now: nat, disk: Disk, versions: VersionStore, echo: EchoGuard,
                      enc: Encryption?) returns (r: Result<Outcome, SessionError>)
    requires enc != null ==> enc.sendChain != enc.recvChain
    modifies disk, versions, echo, Footprint(enc)
    ensures match Received(old(NodeOf(id, disk, versions, echo, enc)), ev, now)
      case Err(e) => r == Err(e) && NodeOf(id, disk, versions, echo, enc)
                                    == AfterFailure(old(NodeOf(id, disk, versions, echo, enc)), ev)
      case Ok((after, outcome)) => r == Ok(outcome) && NodeOf(id, disk, versions, echo, enc) == after
  {
    if ev.origin == id || ev.Bootstrap? || ev.BootstrapAck? {
      return Ok(Skipped);
    }
    var clear := ev;
    if enc != null && ev.Write? {
      if ev.data.Clear? {
        return Err(Decryption(NotAuthentic));
      }
      var plain := enc.recvChain.Decrypt(ev.data.sealed, enc.ad, ev.sequence);
      if plain.Err? {
        return Err(Decryption(plain.error));
      }
      clear := ev.(data := Clear(plain.value));
    }
    assert Decrypted(old(NodeOf(id, disk, versions, echo, enc)), ev)
        == Ok((NodeOf(id, disk, versions, echo, enc), clear));
    r := ApplyEvent(id, clear, now, disk, versions, echo);
  }

  /** The live loop over what its fetches bring; an error ends it. */
  function ReceivedAll(n: Node, fetched: seq<Fetched>): (Node, Option<SessionError>)
    decreases |fetched|
  {
    if fetched == [] then (n, None)
    else
      match fetched[0]
      case NoFetch => (n, Some(FetchFailed))
      case Malformed => ReceivedAll(n, fetched[1..])
      case Arrives(ev, now, acked) =>
        match Received(n, ev, now)
        case Err(e) => (AfterFailure(n, ev), Some(e))
        case Ok((after, outcome)) =>
          if !acked && !outcome.Skipped? then (after, Some(AckFailed)) else ReceivedAll(after, fetched[1..])
  }

  function Parsed(fetched: seq<Fetched>): seq<Fetched> {
    if fetched == [] then []
    else (if fetched[0].Malformed? then [] else [fetched[0]]) + Parsed(fetched[1..])
  }

  /** A message that does not parse makes no difference to a live session. */
  lemma {:induction false} MalformedIsPassedOver(n: Node, fetched: seq<Fetched>)
    ensures ReceivedAll(n, fetched) == ReceivedAll(n, Parsed(fetched))
    decreases |fetched|
  {
    if fetched != [] {
      var f, rest := fetched[0], Parsed(fetched[1..]);
      MalformedIsPassedOver(n, fetched[1..]);
      if !f.Malformed? {
        assert Parsed(fetched)[0] == f && Parsed(fetched)[1..] == rest;
        if f.Arrives? && Received(n, f.ev, f.now).Ok? {
          MalformedIsPassedOver(Received(n, f.ev, f.now).value.0, fetched[1..]);
        }
      } else {
        assert Parsed(fetched) == rest;
      }
    }
  }

  lemma {:induction false} ReceivedInTurn(n: Node, a: seq<Fetched>, b: seq<Fetched>)
    ensures ReceivedAll(n, a + b)
            == if ReceivedAll(n, a).1.None? then ReceivedAll(ReceivedAll(n, a).0, b) else ReceivedAll(n, a)
    decreases |a|
  {
    if a == [] {
      assert a + b == b;
    } else {
      assert (a + b)[0] == a[0] && (a + b)[1..] == a[1..] + b;
      ReceivedInTurn(n, a[1..], b);
      if a[0].Arrives? && Received(n, a[0].ev, a[0].now).Ok? {
        ReceivedInTurn(Received(n, a[0].ev, a[0].now).value.0, a[1..], b);
      }
    }
  }

  /** A failing fetch ends a session where it stands. A message that is taken, and acknowledged or passed over,
      leaves the rest to the node it makes; one that is not acknowledged ends the session after it has been
      applied, and one that fails ends it too. */
  lemma SessionGoesOnOrEnds(n: Node, before: seq<Fetched>, ev: Event, now: nat, acked: bool, later: seq<Fetched>)
    requires ReceivedAll(n, before).1.None?
    ensures var at := ReceivedAll(n, before).0;
      && ReceivedAll(n, before + ([NoFetch] + later)) == (at, Some(FetchFailed))
      && var r := Received(at, ev, now);
      ReceivedAll(n, before + ([Arrives(ev, now, acked)] + later))
      == if r.Err? then (AfterFailure(at, ev), Some(r.error))
         else if acked || r.value.1 == Skipped then ReceivedAll(r.value.0, later)
         else (r.value.0, Some(AckFailed))
  {
    ReceivedInTurn(n, before, [NoFetch] + later);
    ReceivedInTurn(n, before, [Arrives(ev, now, acked)] + later);
    assert ([Arrives(ev, now, acked)] + later)[1..] == later;
  }

  method ReceiveChanges(id: MachineId, fetched: seq<Fetched>, disk: Disk, versions: VersionStore, echo: EchoGuard,
                        enc: Encryption?) returns (error: Option<SessionError>)
    requires enc != null ==> enc.sendChain != enc.recvChain
    modifies disk, versions, echo, Footprint(enc)
    ensures (NodeOf(id, disk, versions, echo, enc), error)
            == ReceivedAll(old(NodeOf(id, disk, versions, echo, enc)), fetched)
  {
    for i := 0 to |fetched|
      invariant ReceivedAll(NodeOf(id, disk, versions, echo, enc), fetched[i..])
        == ReceivedAll(old(NodeOf(id, disk, versions, echo, enc)), fetched)
    {
      assert fetched[i..][0] == fetched[i] && fetched[i..][1..] == fetched[i + 1..];
      match fetched[i] {
        case NoFetch =>
          return Some(FetchFailed);
        case Malformed =>
        case Arrives(ev, now, acked) =>
          var r := ReceiveEvent(id, ev, now, disk, versions, echo, enc);
          if r.Err? {
            return Some(r.error);
          }
          if !acked && !r.value.Skipped? {
            return Some(AckFailed);
          }
      }
    }
    return None;
  }
}
