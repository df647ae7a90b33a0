/** What the start-up protocol says about ops is what the loops of the code do with events: the live loop, the
    drain and the wait for a control message branch as it does, and every reconciliation with its data is one of
    its runs (internal/syncfs/encrypt.go, reconcile.go, bridge.go). */
module StartupLoops {
  import opened Outcomes
  import opened Paths
  import opened Events
  import opened Bridge
  import opened Reconciliation
  import P = Startup
  import R = ReconcileRun
  import N = ReconcileSteps
  import S = Session

  type Side = S.Side

  /** Each event has the op of its kind, and no other. */
  lemma OpTellsKind(ev: Event)
    ensures var op := P.OpOf(ev);
      && (op.WriteOp? <==> ev.Write?) && (op.RemoveOp? <==> ev.Remove?) && (op.RenameOp? <==> ev.Rename?)
      && (op.BootstrapOp? <==> ev.Bootstrap?) && (op.BootstrapAckOp? <==> ev.BootstrapAck?)
      && (op.ManifestOp? <==> ev.OpManifest?) && (op.DoneOp? <==> ev.ReconcileDone?)
      && (P.IsMutationOp(op) <==> IsMutation(ev))
  {
  }

  /** A live node is broken by exactly the peer's events that the live loop refuses as unknown; bootstrap
      messages it passes over. */
  lemma LiveLoopBranches(n: Node, ev: Event, now: nat, cursor: nat, size: nat, diff: nat)
    requires ev.origin != n.id && !IsMutation(ev)
    ensures var pc := P.OnPeerOp(P.Local(P.Live, cursor, size), P.OpOf(ev), diff);
      && (pc.Live? || pc.Broken?)
      && (pc.Broken? <==> Received(n, ev, now) == Err(Application(UnknownOp)))
      && (pc.Live? <==> Received(n, ev, now) == Ok((n, Skipped)))
  {
  }

  lemma LiveLoopTakesMutations(ev: Event, cursor: nat, size: nat, diff: nat)
    requires IsMutation(ev)
    ensures P.OnPeerOp(P.Local(P.Live, cursor, size), P.OpOf(ev), diff) == P.Live
    ensures P.Fetches(P.Live)
  {
  }

  /** A draining node ends, goes on or breaks on the peer's next event exactly as the drain does, unless the
      event itself fails. */
  lemma DrainBranches(n: Node, ev: Event, now: nat, cursor: nat, size: nat, diff: nat)
    requires ev.origin != n.id
    ensures var pc := P.OnPeerOp(P.Local(P.Draining, cursor, size), P.OpOf(ev), diff);
      var end := DrainFetched(n, [Arrives(ev, now, true)]).1;
      && (pc.Live? <==> end == Done) && (pc.Broken? <==> end == Unexpected(ev))
      && (pc.Draining? <==> end == Waiting || end.Failed?)
  {
    assert [Arrives(ev, now, true)][1..] == [];
  }

  /** And the wait for the manifest. */
  lemma AwaitBranches(peer: MachineId, ev: Event, now: nat, cursor: nat, size: nat, diff: nat)
    requires ev.origin == peer
    ensures var pc := P.OnPeerOp(P.Local(P.AwaitManifest, cursor, size), P.OpOf(ev), diff);
      var r := Awaited(peer, [Arrives(ev, now, true)]).0;
      && (pc == P.Pushing(diff) <==> r.Ok?) && (pc.Broken? <==> r == Err(Unexpected(ev)))
  {
  }

  // ---- Every reconciliation is a start-up ----

  function RoleOf(x: Side): P.Role {
    if x.A? then P.Initiator else P.Responder
  }

  function PcOf(l: R.Local): P.Pc {
    match l.pc
    case Announcing => P.SendManifest
    case Listening => P.AwaitManifest
    case Pushing(k) => P.Pushing(if k <= |l.plan| then |l.plan| - k else 0)
    case Draining => P.Draining
    case Finished => P.Live
    case Broken => P.Broken
  }

  function LocalOf(l: R.Local, size: nat): P.Local {
    P.Local(PcOf(l), l.cursor, size)
  }

  function MessageOf(ev: Event, ida: MachineId): P.Message {
    P.Message(if ev.origin == ida then P.Initiator else P.Responder, P.OpOf(ev))
  }

  function LogOf(log: seq<Event>, ida: MachineId): seq<P.Message> {
    seq(|log|, i requires 0 <= i < |log| => MessageOf(log[i], ida))
  }

  /** A reconciliation, with its data left out. */
  function Abstract(s: R.State, na: Node, nb: Node): P.State {
    P.State(LocalOf(s.a, |na.files|), LocalOf(s.b, |nb.files|), LogOf(s.log, na.id), false)
  }

  function StepOf(s: R.State, x: Side, step: R.Step): P.Step {
    var l := s.Of(x);
    match step
    case Publish =>
      if l.pc.Pushing? && l.pc.next < |l.plan| then P.Push(l.plan[l.pc.next] !in l.node.files) else P.Publish
    case Fetch(plan, _) => P.Fetch(if TakesManifest(s, x) then |plan| else 0)
    case GoOn(ev) => P.Mutate(P.OpOf(ev))
  }

  /** The next message is the manifest that the node waits for. */
  predicate TakesManifest(s: R.State, x: Side) {
    var l := s.Of(x);
    l.pc.Listening? && l.cursor < |s.log| && s.log[l.cursor].origin != l.node.id && s.log[l.cursor].OpManifest?
  }

  lemma LogOfMore(log: seq<Event>, ev: Event, ida: MachineId)
    ensures LogOf(log + [ev], ida) == LogOf(log, ida) + [MessageOf(ev, ida)]
  {
  }

  lemma AbstractOf(s: R.State, x: Side, na: Node, nb: Node)
    ensures Abstract(s, na, nb).Of(RoleOf(x)) == LocalOf(s.Of(x), |N.NodeOfSide(x, na, nb).files|)
  {
  }

  /** What the abstraction needs of a reconciliation under way. */
  predicate Sound(s: R.State, na: Node, nb: Node) {
    && na.id != nb.id && s.a.node.id == na.id && s.b.node.id == nb.id
    && SoundLocal(s.a, na) && SoundLocal(s.b, nb)
  }

  predicate SoundLocal(l: R.Local, n: Node) {
    && (l.pc.Pushing? ==> l.pc.next <= |l.plan|)
    && (l.pc.Listening? ==> l.node.files == n.files)
  }

  lemma IsSound(s: R.State, na: Node, nb: Node)
    requires R.Inv(s, na, nb)
    ensures Sound(s, na, nb)
  {
  }

  /** A node that says `ev` and is then `l`. */
  lemma Says(s: R.State, x: Side, l: R.Local, ev: Event, na: Node, nb: Node)
    requires Sound(s, na, nb) && ev.origin == s.Of(x).node.id && l.cursor == s.Of(x).cursor
    ensures Abstract(R.Append(s, x, l, ev), na, nb) == P.Append(Abstract(s, na, nb), RoleOf(x), P.OpOf(ev), PcOf(l))
  {
    AbstractOf(s, x, na, nb);
    LogOfMore(s.log, ev, na.id);
  }

  lemma PublishIsStartup(s: R.State, x: Side, na: Node, nb: Node)
    requires Sound(s, na, nb) && R.Published(s, x).Some?
    ensures P.Next(Abstract(s, na, nb), RoleOf(x), StepOf(s, x, R.Publish))
            == Some(Abstract(R.Published(s, x).value, na, nb))
  {
    var l := s.Of(x);
    AbstractOf(s, x, na, nb);
    match l.pc
    case Announcing =>
      Says(s, x, l.(pc := R.Listening), OpManifest(l.node.id, ScanManifest(l.node.files)), na, nb);
    case Pushing(k) =>
      if k >= |l.plan| {
        Says(s, x, l.(pc := R.Draining), ReconcileDone(l.node.id), na, nb);
      } else {
        PushIsStartup(s, x, na, nb);
      }
  }

  lemma PushIsStartup(s: R.State, x: Side, na: Node, nb: Node)
    requires Sound(s, na, nb) && s.Of(x).pc.Pushing? && s.Of(x).pc.next < |s.Of(x).plan|
    ensures P.Next(Abstract(s, na, nb), RoleOf(x), StepOf(s, x, R.Publish))
            == Some(Abstract(R.Published(s, x).value, na, nb))
  {
    if s.Of(x).plan[s.Of(x).pc.next] in s.Of(x).node.files {
      WriteIsStartup(s, x, na, nb);
    } else {
      VanishedIsStartup(s, x, na, nb);
    }
  }

  lemma WriteIsStartup(s: R.State, x: Side, na: Node, nb: Node)
    requires Sound(s, na, nb) && s.Of(x).pc.Pushing? && s.Of(x).pc.next < |s.Of(x).plan|
    requires s.Of(x).plan[s.Of(x).pc.next] in s.Of(x).node.files
    ensures P.Next(Abstract(s, na, nb), RoleOf(x), P.Push(false)) == Some(Abstract(R.Published(s, x).value, na, nb))
  {
    var l := s.Of(x);
    var p, k := l.plan[l.pc.next], l.pc.next;
    AbstractOf(s, x, na, nb);
    Says(s, x, l.(node := Wrote(l.node, p), pc := R.Pushing(k + 1)), WriteEvent(l.node, p), na, nb);
  }

  lemma VanishedIsStartup(s: R.State, x: Side, na: Node, nb: Node)
    requires Sound(s, na, nb) && s.Of(x).pc.Pushing? && s.Of(x).pc.next < |s.Of(x).plan|
    requires s.Of(x).plan[s.Of(x).pc.next] !in s.Of(x).node.files
    ensures P.Next(Abstract(s, na, nb), RoleOf(x), P.Push(true)) == Some(Abstract(R.Published(s, x).value, na, nb))
  {
    AbstractOf(s, x, na, nb);
    PassesOver(s, x, s.Of(x).(pc := R.Pushing(s.Of(x).pc.next + 1)), na, nb);
  }

  lemma PassesOver(s: R.State, x: Side, l: R.Local, na: Node, nb: Node)
    ensures Abstract(s.With(x, l), na, nb)
            == Abstract(s, na, nb).With(RoleOf(x), LocalOf(l, |N.NodeOfSide(x, na, nb).files|))
  {
  }

  lemma FetchIsStartup(s: R.State, x: Side, plan: seq<Path>, now: nat, na: Node, nb: Node)
    requires Sound(s, na, nb) && R.FromBoth(s.log, na, nb) && R.Next(s, x, R.Fetch(plan, now)).Some?
    ensures P.Next(Abstract(s, na, nb), RoleOf(x), StepOf(s, x, R.Fetch(plan, now)))
            == Some(Abstract(R.Next(s, x, R.Fetch(plan, now)).value, na, nb))
  {
    AbstractOf(s, x, na, nb);
    if TakesManifest(s, x) {
      N.ListedOnce(plan, s.Of(x).node.files.Keys);
    }
  }

  lemma GoOnIsStartup(s: R.State, x: Side, ev: Event, na: Node, nb: Node)
    requires Sound(s, na, nb) && R.Next(s, x, R.GoOn(ev)).Some?
    ensures P.Next(Abstract(s, na, nb), RoleOf(x), StepOf(s, x, R.GoOn(ev)))
            == Some(Abstract(R.Next(s, x, R.GoOn(ev)).value, na, nb))
  {
    AbstractOf(s, x, na, nb);
    LogOfMore(s.log, ev, na.id);
  }

  lemma StepIsStartup(s: R.State, x: Side, step: R.Step, na: Node, nb: Node)
    requires R.Inv(s, na, nb) && R.Next(s, x, step).Some?
    ensures P.Next(Abstract(s, na, nb), RoleOf(x), StepOf(s, x, step))
            == Some(Abstract(R.Next(s, x, step).value, na, nb))
  {
    IsSound(s, na, nb);
    match step
    case Publish => PublishIsStartup(s, x, na, nb);
    case Fetch(plan, now) => FetchIsStartup(s, x, plan, now, na, nb);
    case GoOn(ev) => GoOnIsStartup(s, x, ev, na, nb);
  }

  ghost function StepsOf(na: Node, nb: Node, run: seq<(Side, R.Step)>): seq<(P.Role, P.Step)> {
    if run == [] || R.RunFrom(R.Start(na, nb), run[..|run| - 1]).None? then []
    else
      var (x, step) := run[|run| - 1];
      var before := R.RunFrom(R.Start(na, nb), run[..|run| - 1]).value;
      StepsOf(na, nb, run[..|run| - 1]) + [(RoleOf(x), StepOf(before, x, step))]
  }

  /** Every run of a reconciliation, data left out, is a run of the start-up protocol without encryption: the
      same positions, the same stream of ops. */
  lemma {:induction false} ReconciliationIsStartup(na: Node, nb: Node, run: seq<(Side, R.Step)>)
    requires na.id != nb.id && R.RunFrom(R.Start(na, nb), run).Some?
    ensures P.RunFrom(P.Start(false, |na.files|, |nb.files|), StepsOf(na, nb, run))
            == Some(Abstract(R.RunFrom(R.Start(na, nb), run).value, na, nb))
  {
    if run == [] {
      assert LogOf([], na.id) == [];
    } else {
      var front, steps := run[..|run| - 1], StepsOf(na, nb, run);
      var (x, step) := run[|run| - 1];
      ReconciliationIsStartup(na, nb, front);
      R.RunInv(na, nb, front);
      StepIsStartup(R.RunFrom(R.Start(na, nb), front).value, x, step, na, nb);
      assert steps[..|steps| - 1] == StepsOf(na, nb, front);
    }
  }
}
