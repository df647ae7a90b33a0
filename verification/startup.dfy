/** The start-up of a watch session: optional bootstrap, reconciliation, live loop, on two nodes
    over one ordered stream (internal/syncfs/encrypt.go, reconcile.go, bridge.go;
    internal/daemon/watch_session.go; cmd/jsync/main.go). */
module Startup {
  import opened Outcomes
  import opened Paths
  import opened Events

  datatype Op = BootstrapOp | BootstrapAckOp | ManifestOp | WriteOp | DoneOp | RemoveOp | RenameOp

  function OpOf(ev: Event): Op {
    match ev
    case Write(_, _, _, _, _, _) => WriteOp
    case Remove(_, _) => RemoveOp
    case Rename(_, _, _) => RenameOp
    case Bootstrap(_, _, _, _) => BootstrapOp
    case BootstrapAck(_, _) => BootstrapAckOp
    case OpManifest(_, _) => ManifestOp
    case ReconcileDone(_) => DoneOp
  }

  predicate IsMutationOp(op: Op) {
    op.WriteOp? || op.RemoveOp? || op.RenameOp?
  }

  // ---- awaitControl ----

  datatype Awaited = Got(ev: Event) | WrongOp(ev: Event) | StillWaiting

  /** A durable consumer: what the stream holds, and this node's position in it. */
  class Consumer {
    const stream: seq<Event>
    var cursor: nat

    constructor (stream: seq<Event>)
      ensures this.stream == stream && cursor == 0
    {
      this.stream, cursor := stream, 0;
    }

    /** Everything up to the peer's first message is acknowledged; that message is returned if it
        has the wanted op, and is fatal, and left in place, otherwise. */
    method AwaitControl(peer: MachineId, want: Op) returns (r: Awaited)
      requires cursor <= |stream|
      modifies this
      ensures old(cursor) <= cursor <= |stream|
      ensures forall i :: old(cursor) <= i < cursor && !(r.Got? && i == cursor - 1) ==> stream[i].origin != peer
      ensures r.Got? ==> old(cursor) < cursor && r.ev == stream[cursor - 1] && r.ev.origin == peer && OpOf(r.ev) == want
      ensures r.WrongOp? ==> cursor < |stream| && r.ev == stream[cursor] && r.ev.origin == peer && OpOf(r.ev) != want
      ensures r.StillWaiting? ==> cursor == |stream|
    {
      while cursor < |stream|
        invariant old(cursor) <= cursor <= |stream|
        invariant forall i :: old(cursor) <= i < cursor ==> stream[i].origin != peer
        decreases |stream| - cursor
      {
        var ev := stream[cursor];
        if ev.origin != peer {
          cursor := cursor + 1;
        } else if OpOf(ev) != want {
          return WrongOp(ev);
        } else {
          cursor := cursor + 1;
          return Got(ev);
        }
      }
      return StillWaiting;
    }
  }

  // ---- The protocol ----

  datatype Role = Initiator | Responder {
    function Peer(): Role {
      if Initiator? then Responder else Initiator
    }
  }

  /** Where a node is in its start-up sequence. */
  datatype Pc =
    | SendBootstrap | AwaitAck          // the initiator of an encrypted session
    | AwaitBootstrap | SendAck          // the responder of one
    | SendManifest | AwaitManifest
    | Pushing(left: nat)                // that many paths of the diff to go, then "done"
    | Draining
    | Live
    | Broken                            // an error branch

  datatype Message = Message(author: Role, op: Op)

  /** One node: its position, its cursor, and how many files its own manifest lists. */
  datatype Local = Local(pc: Pc, cursor: nat, size: nat)

  datatype State = State(i: Local, r: Local, log: seq<Message>, encrypted: bool) {
    function Of(x: Role): Local {
      if x.Initiator? then i else r
    }

    function With(x: Role, l: Local): State {
      if x.Initiator? then this.(i := l) else this.(r := l)
    }
  }

  datatype Step =
    | Publish                  // the one publication the node is at
    | Push(vanished: bool)     // one path of the diff, published unless the file is gone
    | Fetch(diff: nat)         // one message; a manifest received gives that many paths to push
    | Mutate(op: Op)           // a live change

  function InitialPc(x: Role, encrypted: bool): Pc {
    if !encrypted then SendManifest else if x.Initiator? then SendBootstrap else AwaitBootstrap
  }

  function Start(encrypted: bool, sizeI: nat, sizeR: nat): State {
    State(Local(InitialPc(Initiator, encrypted), 0, sizeI), Local(InitialPc(Responder, encrypted), 0, sizeR),
          [], encrypted)
  }

  function Append(s: State, x: Role, op: Op, pc: Pc): State {
    s.With(x, s.Of(x).(pc := pc)).(log := s.log + [Message(x, op)])
  }

  /** What a peer's message does to a node at `l`, the code's own branches. */
  function OnPeerOp(l: Local, op: Op, diff: nat): Pc {
    match l.pc
    case AwaitBootstrap => if op.BootstrapOp? then SendAck else Broken
    case AwaitAck => if op.BootstrapAckOp? then SendManifest else Broken
    case AwaitManifest => if op.ManifestOp? then Pushing(diff) else Broken
    case Draining => if op.DoneOp? then Live else if op.WriteOp? then Draining else Broken
    case Live => if op.BootstrapOp? || op.BootstrapAckOp? || IsMutationOp(op) then Live else Broken
    case pc => pc
  }

  predicate Fetches(pc: Pc) {
    pc.AwaitBootstrap? || pc.AwaitAck? || pc.AwaitManifest? || pc.Draining? || pc.Live?
  }

  function Next(s: State, x: Role, step: Step): Option<State> {
    var l := s.Of(x);
    match step
    case Publish =>
      (match l.pc
       case SendBootstrap => Some(Append(s, x, BootstrapOp, AwaitAck))
       case SendAck => Some(Append(s, x, BootstrapAckOp, SendManifest))
       case SendManifest => Some(Append(s, x, ManifestOp, AwaitManifest))
       case Pushing(left) => if left == 0 then Some(Append(s, x, DoneOp, Draining)) else None
       case _ => None)
    case Push(vanished) =>
      if !l.pc.Pushing? || l.pc.left == 0 then None
      else if vanished then Some(s.With(x, l.(pc := Pushing(l.pc.left - 1))))
      else Some(Append(s, x, WriteOp, Pushing(l.pc.left - 1)))
    case Fetch(diff) =>
      if !Fetches(l.pc) || l.cursor >= |s.log| || l.size < diff then None
      else
        var m := s.log[l.cursor];
        Some(s.With(x, l.(cursor := l.cursor + 1,
                          pc := if m.author == x then l.pc else OnPeerOp(l, m.op, diff))))
    case Mutate(op) => if l.pc.Live? && IsMutationOp(op) then Some(Append(s, x, op, Live)) else None
  }

  function RunFrom(s: State, run: seq<(Role, Step)>): Option<State> {
    if run == [] then Some(s)
    else
      match RunFrom(s, run[..|run| - 1])
      case None => None
      case Some(before) => Next(before, run[|run| - 1].0, run[|run| - 1].1)
  }

  // ---- The order in which a node speaks ----

  datatype Phase = Handshake | Inventory | Diff | Mutations | Disorder

  /** The phase after `op`, for a node of role `x`: one control message if encrypted, one manifest,
      writes, one "done", then mutations. */
  function Speak(x: Role, p: Phase, op: Op): Phase {
    match p
    case Handshake => if op == (if x.Initiator? then BootstrapOp else BootstrapAckOp) then Inventory else Disorder
    case Inventory => if op.ManifestOp? then Diff else Disorder
    case Diff => if op.WriteOp? then Diff else if op.DoneOp? then Mutations else Disorder
    case Mutations => if IsMutationOp(op) then Mutations else Disorder
    case Disorder => Disorder
  }

  /** The phase that `x` is in after its messages among the first `k`. */
  function Spoken(log: seq<Message>, x: Role, encrypted: bool, k: nat): Phase
    requires k <= |log|
  {
    if k == 0 then (if encrypted then Handshake else Inventory)
    else
      var before, m := Spoken(log, x, encrypted, k - 1), log[k - 1];
      if m.author == x then Speak(x, before, m.op) else before
  }

  /** What a node at `pc` has said so far. */
  function SaidAt(pc: Pc): Phase {
    match pc
    case SendBootstrap => Handshake
    case AwaitBootstrap => Handshake
    case SendAck => Handshake
    case AwaitAck => Inventory
    case SendManifest => Inventory
    case AwaitManifest => Diff
    case Pushing(_) => Diff
    case Draining => Mutations
    case Live => Mutations
    case Broken => Disorder
  }

  /** What a node at `pc` has heard so far. */
  function HeardAt(pc: Pc): Phase {
    match pc
    case SendBootstrap => Handshake
    case AwaitBootstrap => Handshake
    case AwaitAck => Handshake
    case SendAck => Inventory
    case SendManifest => Inventory
    case AwaitManifest => Inventory
    case Pushing(_) => Diff
    case Draining => Diff
    case Live => Mutations
    case Broken => Disorder
  }

  predicate FitsRole(pc: Pc, x: Role, encrypted: bool) {
    && (pc.SendBootstrap? || pc.AwaitAck? ==> x.Initiator? && encrypted)
    && (pc.AwaitBootstrap? || pc.SendAck? ==> x.Responder? && encrypted)
  }

  predicate LocalInv(log: seq<Message>, encrypted: bool, x: Role, l: Local) {
    && l.cursor <= |log| && !l.pc.Broken? && FitsRole(l.pc, x, encrypted)
    && (l.pc.Pushing? ==> l.pc.left <= l.size)
    && Spoken(log, x, encrypted, |log|) == SaidAt(l.pc)
    && Spoken(log, x.Peer(), encrypted, l.cursor) == HeardAt(l.pc)
  }

  predicate Inv(s: State) {
    LocalInv(s.log, s.encrypted, Initiator, s.i) && LocalInv(s.log, s.encrypted, Responder, s.r)
  }

  lemma {:induction false} SpokenStable(log: seq<Message>, m: Message, x: Role, encrypted: bool, k: nat)
    requires k <= |log|
    ensures Spoken(log + [m], x, encrypted, k) == Spoken(log, x, encrypted, k)
  {
    if k > 0 {
      SpokenStable(log, m, x, encrypted, k - 1);
    }
  }

  lemma {:induction false} DisorderStays(log: seq<Message>, x: Role, encrypted: bool, j: nat, k: nat)
    requires j <= k <= |log| && Spoken(log, x, encrypted, j) == Disorder
    ensures Spoken(log, x, encrypted, k) == Disorder
  {
    if j < k {
      DisorderStays(log, x, encrypted, j, k - 1);
    }
  }

  lemma AppendInv(s: State, x: Role, op: Op, pc: Pc)
    requires Inv(s) && FitsRole(pc, x, s.encrypted) && !pc.Broken? && (pc.Pushing? ==> pc.left <= s.Of(x).size)
    requires SaidAt(pc) == Speak(x, SaidAt(s.Of(x).pc), op) && HeardAt(pc) == HeardAt(s.Of(x).pc)
    ensures Inv(Append(s, x, op, pc))
  {
    var m := Message(x, op);
    var y := x.Peer();
    SpokenStable(s.log, m, x, s.encrypted, |s.log|);
    SpokenStable(s.log, m, y, s.encrypted, |s.log|);
    SpokenStable(s.log, m, y, s.encrypted, s.Of(x).cursor);
    SpokenStable(s.log, m, x, s.encrypted, s.Of(y).cursor);
  }

  lemma FetchInv(s: State, x: Role, diff: nat)
    requires Inv(s) && Next(s, x, Fetch(diff)).Some?
    ensures Inv(Next(s, x, Fetch(diff)).value)
  {
    var l := s.Of(x);
    var m := s.log[l.cursor];
    if m.author != x {
      assert m.author == x.Peer();
      if Spoken(s.log, m.author, s.encrypted, l.cursor + 1) == Disorder {
        DisorderStays(s.log, m.author, s.encrypted, l.cursor + 1, |s.log|);
      }
    }
  }

  /** No interleaving takes a node into an error branch: a waiting node is only ever given the op
      it waits for, a draining one writes and the "done", a live one mutations. */
  lemma StepInv(s: State, x: Role, step: Step)
    requires Inv(s) && Next(s, x, step).Some?
    ensures Inv(Next(s, x, step).value)
  {
    var t := Next(s, x, step).value;
    if step.Fetch? {
      FetchInv(s, x, step.diff);
    } else if t.log != s.log {
      assert t == Append(s, x, t.log[|s.log|].op, t.Of(x).pc);
      AppendInv(s, x, t.log[|s.log|].op, t.Of(x).pc);
    }
  }

  lemma {:induction false} StartupIsSafe(encrypted: bool, sizeI: nat, sizeR: nat, run: seq<(Role, Step)>)
    requires RunFrom(Start(encrypted, sizeI, sizeR), run).Some?
    ensures var s := RunFrom(Start(encrypted, sizeI, sizeR), run).value;
      Inv(s) && !s.i.pc.Broken? && !s.r.pc.Broken?
  {
    if run != [] {
      StartupIsSafe(encrypted, sizeI, sizeR, run[..|run| - 1]);
      var before := RunFrom(Start(encrypted, sizeI, sizeR), run[..|run| - 1]).value;
      StepInv(before, run[|run| - 1].0, run[|run| - 1].1);
    }
  }

  /** A node that has reached the live loop is never given a manifest or a "done". */
  lemma LiveSeesOnlyMutations(s: State, x: Role)
    requires Inv(s) && s.Of(x).pc.Live? && s.Of(x).cursor < |s.log| && s.log[s.Of(x).cursor].author == x.Peer()
    ensures IsMutationOp(s.log[s.Of(x).cursor].op)
  {
    var c := s.Of(x).cursor;
    if Spoken(s.log, x.Peer(), s.encrypted, c + 1) == Disorder {
      DisorderStays(s.log, x.Peer(), s.encrypted, c + 1, |s.log|);
    }
  }

  // ---- Progress ----

  /** The start-up step a node can take now, if any. */
  function StartupStep(s: State, x: Role): Option<Step> {
    var l := s.Of(x);
    match l.pc
    case Live => None
    case Broken => None
    case Pushing(left) => Some(if left == 0 then Publish else Push(false))
    case SendBootstrap => Some(Publish)
    case SendAck => Some(Publish)
    case SendManifest => Some(Publish)
    case _ => if l.cursor < |s.log| then Some(Fetch(0)) else None
  }

  /** Start-up never deadlocks: until both nodes are live, one that is not can take a step. */
  lemma StartupNeverDeadlocks(s: State)
    requires Inv(s) && !(s.i.pc.Live? && s.r.pc.Live?)
    ensures exists x: Role :: StartupStep(s, x).Some? && Next(s, x, StartupStep(s, x).value).Some?
  {
    var x := if StartupStep(s, Initiator).Some? then Initiator else Responder;
    assert Next(s, x, StartupStep(s, x).value).Some?;
  }

  /** The publications a node at `l` has still to make before it only drains. */
  function PublicationsLeft(l: Local): nat {
    match l.pc
    case SendBootstrap => l.size + 3
    case AwaitBootstrap => l.size + 3
    case SendAck => l.size + 3
    case AwaitAck => l.size + 2
    case SendManifest => l.size + 2
    case AwaitManifest => l.size + 1
    case Pushing(left) => left + 1
    case _ => 0
  }

  /** How far into the first `k` messages one must read to hear `x` finish. */
  function Horizon(log: seq<Message>, x: Role, encrypted: bool, k: nat): (h: nat)
    requires k <= |log|
    ensures h <= k
  {
    if k == 0 then 0
    else if Spoken(log, x, encrypted, k - 1) == Mutations then Horizon(log, x, encrypted, k - 1)
    else k
  }

  /** The messages a node has still to read before it is live. */
  function UnreadBy(s: State, x: Role): nat
    requires s.Of(x).cursor <= |s.log|
  {
    var h := Horizon(s.log, x.Peer(), s.encrypted, |s.log|);
    if s.Of(x).pc.Live? || h < s.Of(x).cursor then 0 else h - s.Of(x).cursor
  }

  function Remaining(s: State): nat
    requires s.i.cursor <= |s.log| && s.r.cursor <= |s.log|
  {
    3 * (PublicationsLeft(s.i) + PublicationsLeft(s.r)) + UnreadBy(s, Initiator) + UnreadBy(s, Responder)
  }

  lemma {:induction false} HorizonStable(log: seq<Message>, m: Message, x: Role, encrypted: bool, k: nat)
    requires k <= |log|
    ensures Horizon(log + [m], x, encrypted, k) == Horizon(log, x, encrypted, k)
  {
    if k > 0 {
      SpokenStable(log, m, x, encrypted, k - 1);
      HorizonStable(log, m, x, encrypted, k - 1);
    }
  }

  lemma {:induction false} HorizonAhead(log: seq<Message>, x: Role, encrypted: bool, c: nat, k: nat)
    requires c < k <= |log| && Spoken(log, x, encrypted, c) != Mutations && Spoken(log, x, encrypted, k) != Disorder
    ensures c < Horizon(log, x, encrypted, k)
  {
    if Spoken(log, x, encrypted, k - 1) == Mutations {
      HorizonAhead(log, x, encrypted, c, k - 1);
    }
  }

  /** One more message is at most one more to read, and none if its author had finished. */
  lemma HorizonAfter(log: seq<Message>, m: Message, x: Role, encrypted: bool)
    requires Spoken(log, x, encrypted, |log|) != Disorder
    ensures var h := Horizon(log + [m], x, encrypted, |log| + 1);
      && h <= Horizon(log, x, encrypted, |log|) + 1
      && (Spoken(log, x, encrypted, |log|) == Mutations ==> h == Horizon(log, x, encrypted, |log|))
  {
    HorizonStable(log, m, x, encrypted, |log|);
    SpokenStable(log, m, x, encrypted, |log|);
    HorizonFull(log, x, encrypted, |log|);
  }

  lemma {:induction false} HorizonFull(log: seq<Message>, x: Role, encrypted: bool, k: nat)
    requires k <= |log|
    ensures Spoken(log, x, encrypted, k) != Mutations && Spoken(log, x, encrypted, k) != Disorder ==>
      Horizon(log, x, encrypted, k) == k
  {
    if k > 0 {
      HorizonFull(log, x, encrypted, k - 1);
    }
  }

  lemma AppendProgresses(s: State, x: Role, op: Op, pc: Pc)
    requires Inv(s) && Inv(Append(s, x, op, pc))
    requires if s.Of(x).pc.Live? then pc.Live?
             else PublicationsLeft(Local(pc, s.Of(x).cursor, s.Of(x).size)) < PublicationsLeft(s.Of(x))
    ensures var t := Append(s, x, op, pc);
      if s.Of(x).pc.Live? then Remaining(t) <= Remaining(s) else Remaining(t) < Remaining(s)
  {
    var t := Append(s, x, op, pc);
    UnreadAfter(s, x, op, pc, x);
    UnreadAfter(s, x, op, pc, x.Peer());
    LoadOf(s, x);
    LoadOf(t, x);
  }

  lemma UnreadAfter(s: State, x: Role, op: Op, pc: Pc, z: Role)
    requires Inv(s) && (s.Of(x).pc.Live? ==> pc.Live?)
    ensures UnreadBy(Append(s, x, op, pc), z) <= UnreadBy(s, z) + 1
    ensures s.Of(x).pc.Live? ==> UnreadBy(Append(s, x, op, pc), z) <= UnreadBy(s, z)
  {
    var m := Message(x, op);
    HorizonAfter(s.log, m, z.Peer(), s.encrypted);
    if s.Of(x).pc.Live? && z != x {
      assert z.Peer() == x;
    }
  }

  /** A fetch leaves one message less to read, or ends the reading. */
  lemma FetchedUnread(s: State, x: Role, diff: nat)
    requires Inv(s) && Next(s, x, Fetch(diff)).Some? && Inv(Next(s, x, Fetch(diff)).value)
    ensures var t := Next(s, x, Fetch(diff)).value;
      && UnreadBy(t, x) + 3 * PublicationsLeft(t.Of(x)) <= UnreadBy(s, x) + 3 * PublicationsLeft(s.Of(x))
      && (!s.Of(x).pc.Live? ==>
            UnreadBy(t, x) + 3 * PublicationsLeft(t.Of(x)) < UnreadBy(s, x) + 3 * PublicationsLeft(s.Of(x)))
  {
    if !s.Of(x).pc.Live? {
      HorizonAhead(s.log, x.Peer(), s.encrypted, s.Of(x).cursor, |s.log|);
    }
  }

  lemma FetchProgresses(s: State, x: Role, diff: nat)
    requires Inv(s) && Next(s, x, Fetch(diff)).Some? && Inv(Next(s, x, Fetch(diff)).value)
    ensures var t := Next(s, x, Fetch(diff)).value;
      if s.Of(x).pc.Live? then Remaining(t) <= Remaining(s) else Remaining(t) < Remaining(s)
  {
    var t := Next(s, x, Fetch(diff)).value;
    FetchedUnread(s, x, diff);
    assert t.Of(x.Peer()) == s.Of(x.Peer()) && t.log == s.log && t.encrypted == s.encrypted;
    assert UnreadBy(t, x.Peer()) == UnreadBy(s, x.Peer());
    LoadOf(s, x);
    LoadOf(t, x);
  }

  lemma LoadOf(s: State, x: Role)
    requires s.i.cursor <= |s.log| && s.r.cursor <= |s.log|
    ensures Remaining(s) == 3 * PublicationsLeft(s.Of(x)) + 3 * PublicationsLeft(s.Of(x.Peer()))
                            + UnreadBy(s, x) + UnreadBy(s, x.Peer())
  {
  }

  /** Every start-up step brings the session nearer to both ends being live; live traffic in
      between costs nothing. */
  lemma StartupProgresses(s: State, x: Role, step: Step)
    requires Inv(s) && Next(s, x, step).Some?
    ensures var t := Next(s, x, step).value;
      && Inv(t)
      && if s.Of(x).pc.Live? then Remaining(t) <= Remaining(s) else Remaining(t) < Remaining(s)
  {
    StepInv(s, x, step);
    var t := Next(s, x, step).value;
    if step.Fetch? {
      FetchProgresses(s, x, step.diff);
    } else {
      PublishProgresses(s, x, step);
    }
  }

  lemma PublishProgresses(s: State, x: Role, step: Step)
    requires Inv(s) && Next(s, x, step).Some? && Inv(Next(s, x, step).value) && !step.Fetch?
    ensures var t := Next(s, x, step).value;
      if s.Of(x).pc.Live? then Remaining(t) <= Remaining(s) else Remaining(t) < Remaining(s)
  {
    var t := Next(s, x, step).value;
    if t.log != s.log {
      PublishAppends(s, x, step);
      AppendProgresses(s, x, t.log[|s.log|].op, t.Of(x).pc);
    } else {
      PassesOver(s, x, step);
    }
  }

  /** What is published leaves less to publish. */
  lemma PublishAppends(s: State, x: Role, step: Step)
    requires Next(s, x, step).Some? && Next(s, x, step).value.log != s.log
    ensures var t := Next(s, x, step).value;
      && |t.log| == |s.log| + 1 && t == Append(s, x, t.log[|s.log|].op, t.Of(x).pc)
      && if s.Of(x).pc.Live? then t.Of(x).pc.Live?
         else PublicationsLeft(Local(t.Of(x).pc, s.Of(x).cursor, s.Of(x).size)) < PublicationsLeft(s.Of(x))
  {
  }

  /** A path passed over leaves less to publish, too. */
  lemma PassesOver(s: State, x: Role, step: Step)
    requires Inv(s) && Next(s, x, step).Some? && Inv(Next(s, x, step).value)
    requires !step.Fetch? && Next(s, x, step).value.log == s.log
    ensures Remaining(Next(s, x, step).value) < Remaining(s) && !s.Of(x).pc.Live?
  {
    var t := Next(s, x, step).value;
    assert UnreadBy(t, x) == UnreadBy(s, x) && UnreadBy(t, x.Peer()) == UnreadBy(s, x.Peer());
    LoadOf(s, x);
    LoadOf(t, x);
  }

  /** So a run has at most as many start-up steps as the measure says at its start. */
  function StartupSteps(s: State, run: seq<(Role, Step)>): nat {
    if run == [] then 0
    else
      StartupSteps(s, run[..|run| - 1]) +
      match RunFrom(s, run[..|run| - 1])
      case None => 0
      case Some(before) => if before.Of(run[|run| - 1].0).pc.Live? then 0 else 1
  }

  lemma {:induction false} StartupTerminates(s: State, run: seq<(Role, Step)>)
    requires Inv(s) && RunFrom(s, run).Some?
    ensures Inv(RunFrom(s, run).value) && StartupSteps(s, run) + Remaining(RunFrom(s, run).value) <= Remaining(s)
  {
    if run != [] {
      StartupTerminates(s, run[..|run| - 1]);
      StartupProgresses(RunFrom(s, run[..|run| - 1]).value, run[|run| - 1].0, run[|run| - 1].1);
    }
  }
}
