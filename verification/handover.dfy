/** From the start of a session to live traffic, with the data: two nodes reconcile over the stream and
    go live one by one, each while its peer may still be draining (internal/syncfs/reconcile.go and
    bridge.go, in the order of internal/daemon/watch_session.go). */
module Handover {
  import opened Outcomes
  import opened Paths
  import opened Events
  import opened Bridge
  import opened Reconciliation
  import opened Delivery
  import opened ReconcileSteps
  import R = ReconcileRun
  import S = Session

  type Side = S.Side

  /** The stream and the nodes, and how far each node's reconciliation is: the two agree on a node until
      it has finished, and `recon` then keeps it as it went live. */
  datatype Whole = Whole(recon: R.State, session: S.State)

  datatype Step = Reconciles(step: R.Step) | Lives(live: S.Step)

  function Begin(ida: MachineId, idb: MachineId, fa: Files, fb: Files, keys: Option<S.Keys>): Whole {
    Whole(R.Start(S.StartNode(ida, fa, keys, S.A), S.StartNode(idb, fb, keys, S.B)), S.Start(ida, idb, fa, fb, keys))
  }

  /** What a live node does: its user's edits, its watcher's reports, and the messages it consumes. */
  predicate IsLive(step: S.Step) {
    step.UserWrite? || step.UserTree? || step.Report? || step.Deliver?
  }

  /** A step of the reconciliation, as a step on the stream and the files. */
  function AsSession(l: R.Local, step: R.Step): S.Step
    requires !step.GoOn?
  {
    match step
    case Publish =>
      if l.pc.Announcing? then S.Control(OpManifest(l.node.id, ScanManifest(l.node.files)))
      else if l.pc.Pushing? && l.pc.next < |l.plan| then S.Push(l.plan[l.pc.next])
      else S.Control(ReconcileDone(l.node.id))
    case Fetch(_, now) => S.Deliver(now)
  }

  ghost function Next(w: Whole, x: Side, step: Step): Option<Whole> {
    match step
    case Reconciles(st) =>
      if st.GoOn? then None
      else
        (match (R.Next(w.recon, x, st), S.Next(w.session, x, AsSession(w.recon.Of(x), st)))
         case (Some(r), Some(s)) => Some(Whole(r, s))
         case _ => None)
    case Lives(st) =>
      if !w.recon.Of(x).pc.Finished? || !IsLive(st) then None
      else
        match S.Next(w.session, x, st)
        case None => None
        case Some(s) =>
          if |s.log| <= |w.session.log| then Some(w.(session := s))
          else
            match R.Next(w.recon, x, R.GoOn(s.log[|w.session.log|].ev))
            case None => None
            case Some(r) => Some(Whole(r, s))
  }

  ghost function RunFrom(w: Whole, run: seq<(Side, Step)>): Option<Whole> {
    if run == [] then Some(w)
    else
      match RunFrom(w, run[..|run| - 1])
      case None => None
      case Some(before) => Next(before, run[|run| - 1].0, run[|run| - 1].1)
  }

  // ---- The two views agree ----

  ghost predicate SameLocal(w: Whole, x: Side) {
    && w.session.Id(x) == w.recon.Of(x).node.id
    && (!w.recon.Of(x).pc.Finished? ==>
          w.session.Of(x).node == w.recon.Of(x).node && w.session.Of(x).cursor == w.recon.Of(x).cursor)
  }

  predicate SameLog(log: seq<S.Record>, events: seq<Event>) {
    |log| == |events| && forall i :: 0 <= i < |log| ==> log[i].ev == events[i]
  }

  ghost predicate Agree(w: Whole) {
    SameLog(w.session.log, w.recon.log) && SameLocal(w, S.A) && SameLocal(w, S.B)
  }

  ghost predicate Inv(w: Whole, na: Node, nb: Node) {
    Agree(w) && R.Inv(w.recon, na, nb) && S.CountInv(w.session)
  }

  lemma AgreeOn(w: Whole, x: Side)
    requires Agree(w)
    ensures SameLocal(w, x)
  {
  }

  lemma OriginIsAuthor(s: S.State, x: Side, i: nat)
    requires S.CountInv(s) && i < |s.log|
    ensures s.log[i].author == x <==> s.log[i].ev.origin == s.Id(x)
  {
    assert S.RecordCounts(S.IdsOf(s), s.log, i);
  }

  lemma PublishAgrees(w: Whole, x: Side)
    requires Agree(w) && R.Published(w.recon, x).Some?
    ensures var s := S.Next(w.session, x, AsSession(w.recon.Of(x), R.Publish));
      && s.Some? && Agree(Whole(R.Published(w.recon, x).value, s.value))
      && s.value.Of(x).node == R.Published(w.recon, x).value.Of(x).node
  {
    AgreeOn(w, x);
    AgreeOn(w, x.Other());
  }

  /** Consuming an own message, or one that is no change. */
  lemma PassesOver(s: S.State, x: Side, now: nat)
    requires s.Of(x).cursor < |s.log|
    requires s.log[s.Of(x).cursor].author == x || !IsMutation(s.log[s.Of(x).cursor].ev)
    ensures S.Next(s, x, S.Deliver(now)) == Some(s.With(x, s.Of(x).(cursor := s.Of(x).cursor + 1)))
  {
  }

  lemma Consumes(s: S.State, x: Side, now: nat)
    requires s.Of(x).cursor < |s.log| && s.log[s.Of(x).cursor].author != x && s.log[s.Of(x).cursor].ev.Write?
    requires Received(s.Of(x).node, s.log[s.Of(x).cursor].ev, now).Ok?
    ensures var t := S.Next(s, x, S.Deliver(now));
      && t.Some? && t.value == s.With(x, t.value.Of(x)) && t.value.Of(x).cursor == s.Of(x).cursor + 1
      && t.value.Of(x).node == Received(s.Of(x).node, s.log[s.Of(x).cursor].ev, now).value.0
  {
    var (node, outcome) := Received(s.Of(x).node, s.log[s.Of(x).cursor].ev, now).value;
    S.ArrivedNode(s.Of(x), node, s.log[s.Of(x).cursor].ev.path, outcome);
  }

  /** What a fetch leaves on the node, by what it fetches. */
  lemma FetchShape(r: R.State, x: Side, plan: seq<Path>, now: nat, na: Node, nb: Node)
    requires R.Inv(r, na, nb) && R.Next(r, x, R.Fetch(plan, now)).Some?
    ensures var l, ev, t := r.Of(x), r.log[r.Of(x).cursor], R.Next(r, x, R.Fetch(plan, now)).value;
      && t.log == r.log && t.Of(x.Other()) == r.Of(x.Other()) && t.Of(x).cursor == l.cursor + 1
      && if ev.origin == l.node.id || !IsMutation(ev) then t.Of(x).node == l.node
         else ev.Write? && Received(l.node, ev, now).Ok? && t.Of(x).node == Received(l.node, ev, now).value.0
  {
    var n, m := if x.A? then na else nb, if x.A? then nb else na;
    if r.log[r.Of(x).cursor].origin != n.id {
      R.NextIs(r.log, r.Of(x), r.Of(x.Other()), n, m);
    }
  }

  lemma Moved(w: Whole, x: Side, r: R.State, s: S.State)
    requires Agree(w) && r.log == w.recon.log && s.log == w.session.log
    requires r.Of(x.Other()) == w.recon.Of(x.Other()) && s.Of(x.Other()) == w.session.Of(x.Other())
    requires s.Of(x).node == r.Of(x).node && s.Of(x).cursor == r.Of(x).cursor
    ensures Agree(Whole(r, s))
  {
    AgreeOn(w, x.Other());
    assert x.Other() == S.A || x.Other() == S.B;
  }

  lemma FetchAgrees(w: Whole, x: Side, plan: seq<Path>, now: nat, na: Node, nb: Node)
    requires Inv(w, na, nb) && R.Next(w.recon, x, R.Fetch(plan, now)).Some?
    ensures var s := S.Next(w.session, x, S.Deliver(now));
      && s.Some? && Agree(Whole(R.Next(w.recon, x, R.Fetch(plan, now)).value, s.value))
      && s.value.Of(x).node == R.Next(w.recon, x, R.Fetch(plan, now)).value.Of(x).node
  {
    var c, r := w.recon.Of(x).cursor, R.Next(w.recon, x, R.Fetch(plan, now)).value;
    AgreeOn(w, x);
    OriginIsAuthor(w.session, x, c);
    FetchShape(w.recon, x, plan, now, na, nb);
    if w.session.log[c].author == x || !IsMutation(w.recon.log[c]) {
      PassesOver(w.session, x, now);
    } else {
      Consumes(w.session, x, now);
    }
    Moved(w, x, r, S.Next(w.session, x, S.Deliver(now)).value);
  }

  /** A live step publishes at most one message, a change of its own. */
  lemma LiveShape(s: S.State, x: Side, step: S.Step)
    requires IsLive(step) && S.Next(s, x, step).Some?
    requires S.NextIsForeign(s, x)
    ensures var t := S.Next(s, x, step).value;
      && t.Of(x.Other()) == s.Of(x.Other()) && t.Id(x) == s.Id(x)
      && (t.log == s.log || (|t.log| == |s.log| + 1 && t.log == s.log + [t.log[|s.log|]]
                             && IsMutation(t.log[|s.log|].ev) && t.log[|s.log|].ev.origin == s.Id(x)))
  {
    S.StepShape(s, x, step);
  }

  lemma LiveAgrees(w: Whole, x: Side, step: S.Step)
    requires Agree(w) && S.CountInv(w.session) && w.recon.Of(x).pc.Finished? && IsLive(step)
    requires S.Next(w.session, x, step).Some?
    ensures Next(w, x, Lives(step)).Some? && Agree(Next(w, x, Lives(step)).value)
  {
    AgreeOn(w, x);
    AgreeOn(w, x.Other());
    if w.session.Of(x).cursor < |w.session.log| {
      OriginIsAuthor(w.session, x, w.session.Of(x).cursor);
    }
    LiveShape(w.session, x, step);
    var s := S.Next(w.session, x, step).value;
    if s.log != w.session.log {
      LogsGrow(w.session.log, w.recon.log, s.log[|w.session.log|]);
    }
  }

  lemma LogsGrow(log: seq<S.Record>, events: seq<Event>, r: S.Record)
    requires SameLog(log, events)
    ensures SameLog(log + [r], events + [r.ev])
  {
  }

  lemma StepInv(w: Whole, x: Side, step: Step, na: Node, nb: Node)
    requires Inv(w, na, nb) && Next(w, x, step).Some?
    ensures Inv(Next(w, x, step).value, na, nb)
    ensures step.Reconciles? ==>
      Next(w, x, step).value.session.Of(x).node == Next(w, x, step).value.recon.Of(x).node
  {
    match step
    case Reconciles(st) =>
      R.StepInv(w.recon, x, st, na, nb);
      S.StepCounts(w.session, x, AsSession(w.recon.Of(x), st));
      if st.Publish? {
        PublishAgrees(w, x);
      } else {
        FetchAgrees(w, x, st.plan, st.now, na, nb);
      }
    case Lives(st) =>
      S.StepCounts(w.session, x, st);
      LiveAgrees(w, x, st);
      var t := Next(w, x, step).value;
      if |t.session.log| > |w.session.log| {
        R.StepInv(w.recon, x, R.GoOn(t.session.log[|w.session.log|].ev), na, nb);
      }
  }

  /** Running the two views side by side excludes nothing: whatever the reconciliation can do the session
      can do, and a live node can do whatever the session lets it. */
  lemma NothingExcluded(w: Whole, x: Side, na: Node, nb: Node)
    requires Inv(w, na, nb)
    ensures forall st: R.Step :: !st.GoOn? && R.Next(w.recon, x, st).Some? ==> Next(w, x, Reconciles(st)).Some?
    ensures w.recon.Of(x).pc.Finished? ==>
      forall st: S.Step :: !st.Push? && !st.Control? && S.Next(w.session, x, st).Some? ==> Next(w, x, Lives(st)).Some?
  {
    forall st: R.Step | !st.GoOn? && R.Next(w.recon, x, st).Some? ensures Next(w, x, Reconciles(st)).Some? {
      if st.Publish? {
        PublishAgrees(w, x);
      } else {
        FetchAgrees(w, x, st.plan, st.now, na, nb);
      }
    }
    if w.recon.Of(x).pc.Finished? {
      forall st: S.Step | !st.Push? && !st.Control? && S.Next(w.session, x, st).Some?
        ensures Next(w, x, Lives(st)).Some?
      {
        LiveAgrees(w, x, st);
      }
    }
  }

  // ---- The run as a session, and as a reconciliation ----

  ghost function SessionSteps(w: Whole, run: seq<(Side, Step)>): S.Run {
    if run == [] || RunFrom(w, run[..|run| - 1]).None? then []
    else
      var (x, step) := run[|run| - 1];
      SessionSteps(w, run[..|run| - 1])
      + [(x, if step.Lives? then step.live
             else if step.step.GoOn? then S.Control(step.step.ev)
             else AsSession(RunFrom(w, run[..|run| - 1]).value.recon.Of(x), step.step))]
  }

  ghost function ReconciliationOf(w: Whole, run: seq<(Side, Step)>): seq<(Side, R.Step)> {
    if run == [] || RunFrom(w, run).None? || RunFrom(w, run[..|run| - 1]).None? then []
    else
      ReconciliationOf(w, run[..|run| - 1])
      + AsReconciliation(RunFrom(w, run[..|run| - 1]).value, run[|run| - 1].0, run[|run| - 1].1, RunFrom(w, run).value)
  }

  /** What a step is to the reconciliation: its own step, a message of a live node, or nothing. */
  function AsReconciliation(before: Whole, x: Side, step: Step, after: Whole): seq<(Side, R.Step)> {
    var log, more := before.session.log, after.session.log;
    if step.Reconciles? then [(x, step.step)] else if |more| <= |log| then [] else [(x, R.GoOn(more[|log|].ev))]
  }

  lemma StepIsReconciliation(before: Whole, x: Side, step: Step, run: seq<(Side, R.Step)>, start: R.State)
    requires Next(before, x, step).Some? && R.RunFrom(start, run) == Some(before.recon)
    ensures var after := Next(before, x, step).value;
      R.RunFrom(start, run + AsReconciliation(before, x, step, after)) == Some(after.recon)
  {
    var after := Next(before, x, step).value;
    var more := AsReconciliation(before, x, step, after);
    if more == [] {
      assert run + more == run;
    } else {
      assert (run + more)[..|run|] == run && |run + more| == |run| + 1;
    }
  }

  lemma {:induction false} IsASession(w: Whole, run: seq<(Side, Step)>)
    requires RunFrom(w, run).Some?
    ensures S.RunFrom(w.session, SessionSteps(w, run)) == Some(RunFrom(w, run).value.session)
  {
    if run != [] {
      var front, steps := run[..|run| - 1], SessionSteps(w, run);
      IsASession(w, front);
      assert steps[..|steps| - 1] == SessionSteps(w, front);
    }
  }

  lemma {:induction false} IsAReconciliation(w: Whole, run: seq<(Side, Step)>)
    requires RunFrom(w, run).Some?
    ensures R.RunFrom(w.recon, ReconciliationOf(w, run)) == Some(RunFrom(w, run).value.recon)
  {
    if run != [] {
      var front := run[..|run| - 1];
      IsAReconciliation(w, front);
      var (x, step) := run[|run| - 1];
      StepIsReconciliation(RunFrom(w, front).value, x, step, ReconciliationOf(w, front), w.recon);
    }
  }

  lemma {:induction false} RunInv(w: Whole, run: seq<(Side, Step)>, na: Node, nb: Node)
    requires Inv(w, na, nb) && RunFrom(w, run).Some?
    ensures Inv(RunFrom(w, run).value, na, nb)
  {
    if run != [] {
      RunInv(w, run[..|run| - 1], na, nb);
      StepInv(RunFrom(w, run[..|run| - 1]).value, run[|run| - 1].0, run[|run| - 1].1, na, nb);
    }
  }

  lemma BeginInv(ida: MachineId, idb: MachineId, fa: Files, fb: Files, keys: Option<S.Keys>)
    requires ida != idb
    ensures Inv(Begin(ida, idb, fa, fb, keys), S.StartNode(ida, fa, keys, S.A), S.StartNode(idb, fb, keys, S.B))
  {
    S.StartCounts(ida, idb, fa, fb, keys);
    R.RunInv(S.StartNode(ida, fa, keys, S.A), S.StartNode(idb, fb, keys, S.B), []);
  }

  // ---- From start to live ----

  /** Where `x` starts from. */
  function First(ida: MachineId, idb: MachineId, fa: Files, fb: Files, keys: Option<S.Keys>, x: Side): Node {
    if x.A? then S.StartNode(ida, fa, keys, S.A) else S.StartNode(idb, fb, keys, S.B)
  }

  /** In every run from the start of a session into live traffic: no node meets an op it does not expect,
      however early its peer is live, and reconciles within its bound; as long as the conflict names it
      used were new, it went live with the union; and at every point, over both phases, its chains are in
      step and the peer's next write opens to what its author read. */
  lemma FromStartToLive(ida: MachineId, idb: MachineId, fa: Files, fb: Files, keys: Option<S.Keys>,
                        run: seq<(Side, Step)>, x: Side)
    requires ida != idb && RunFrom(Begin(ida, idb, fa, fb, keys), run).Some?
    ensures var w := RunFrom(Begin(ida, idb, fa, fb, keys), run).value;
      var n, m := First(ida, idb, fa, fb, keys, x), First(ida, idb, fa, fb, keys, x.Other());
      var l, pl, s := w.recon.Of(x), w.recon.Of(x.Other()), w.session;
      && !l.pc.Broken?
      && Reconciling(ReconciliationOf(Begin(ida, idb, fa, fb, keys), run), x) <= 2 * |n.files| + |m.files| + 6
      && (l.pc.Finished? && R.NamesNew(l, pl, n, m) ==> R.HasUnion(l, pl, n, m))
      && LocalChains(keys, s.log, x, s.Of(x))
      && (NextIsPeerWrite(s, x) ==>
            var ev := s.log[s.Of(x).cursor].ev;
            Decrypted(s.Of(x).node, ev).Ok? && Decrypted(s.Of(x).node, ev).value.1 == ev.(data := Clear(PlainOf(ev))))
  {
    var w, na, nb := Begin(ida, idb, fa, fb, keys), S.StartNode(ida, fa, keys, S.A), S.StartNode(idb, fb, keys, S.B);
    IsASession(w, run);
    Lockstep(ida, idb, fa, fb, keys, SessionSteps(w, run), x);
    IsAReconciliation(w, run);
    R.NeverBroken(na, nb, ReconciliationOf(w, run));
    R.RunsEndInUnion(na, nb, ReconciliationOf(w, run));
    ReconcilesInBound(na, nb, ReconciliationOf(w, run), x);
  }

  /** A node goes live with the files its reconciliation ended with. */
  lemma GoesLiveAsItIs(ida: MachineId, idb: MachineId, fa: Files, fb: Files, keys: Option<S.Keys>,
                       run: seq<(Side, Step)>)
    requires ida != idb && run != [] && RunFrom(Begin(ida, idb, fa, fb, keys), run).Some?
    requires !RunFrom(Begin(ida, idb, fa, fb, keys), run[..|run| - 1]).value.recon.Of(run[|run| - 1].0).pc.Finished?
    ensures var w, x := RunFrom(Begin(ida, idb, fa, fb, keys), run).value, run[|run| - 1].0;
      w.session.Of(x).node == w.recon.Of(x).node
  {
    var w, na, nb := Begin(ida, idb, fa, fb, keys), S.StartNode(ida, fa, keys, S.A), S.StartNode(idb, fb, keys, S.B);
    BeginInv(ida, idb, fa, fb, keys);
    RunInv(w, run[..|run| - 1], na, nb);
    StepInv(RunFrom(w, run[..|run| - 1]).value, run[|run| - 1].0, run[|run| - 1].1, na, nb);
  }
}
