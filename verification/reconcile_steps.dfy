/** How long a reconciliation takes: each node is done within a bound on its own steps, however its peer
    interleaves and however much it publishes once it is live (internal/syncfs/reconcile.go). */
module ReconcileSteps {
  import opened Paths
  import opened Events
  import opened Bridge
  import opened Reconciliation
  import opened ReconcileRun

  lemma {:induction false} ListedOnce(ps: seq<Path>, all: set<Path>)
    requires NoRepeats(ps) && forall p :: p in ps ==> p in all
    ensures |ps| <= |all|
    decreases |ps|
  {
    if ps != [] {
      var front, last := ps[..|ps| - 1], ps[|ps| - 1];
      ListedOnce(front, all - {last});
    }
  }

  lemma {:induction false} PushLogShort(n: Node, ps: seq<Path>)
    ensures |PushLog(n, ps)| <= |ps|
  {
    if ps != [] {
      PushLogShort(n, ps[..|ps| - 1]);
    }
  }

  /** What a node says before it goes live is at most its manifest, each file once, and "done". */
  lemma ScriptShort(log: seq<Event>, l: Local, n: Node, m: Node)
    requires LocalInv(log, l, n, m)
    ensures |Script(n, l.pc, l.plan)| <= |n.files| + 2
  {
    if l.pc.Pushing? || l.pc.Draining? || l.pc.Finished? {
      ListedOnce(l.plan, n.files.Keys);
      PushLogShort(n, l.plan);
      match l.pc
      case Pushing(k) => PushLogShort(n, if k <= |l.plan| then l.plan[..k] else l.plan);
      case _ =>
    }
  }

  function PublicationsLeft(l: Local): nat {
    match l.pc
    case Announcing => |l.node.files| + 2
    case Listening => |l.node.files| + 1
    case Pushing(k) => if k <= |l.plan| then |l.plan| - k + 1 else 1
    case _ => 0
  }

  /** The steps a node has left, at most: two for each of its own messages, which it publishes and reads,
      and one for each message of its peer. */
  function StepsLeft(log: seq<Event>, l: Local, n: Node, m: Node): int
    requires l.cursor <= |log|
  {
    if l.pc.Finished? then 0
    else 2 * PublicationsLeft(l) + |Said(log, n.id)| - |Said(log[..l.cursor], n.id)|
         + |m.files| + 2 - |Said(log[..l.cursor], m.id)|
  }

  lemma StepsLeftNat(log: seq<Event>, l: Local, pl: Local, n: Node, m: Node)
    requires LocalInv(log, l, n, m) && LocalInv(log, pl, m, n) && n.id != m.id
    ensures StepsLeft(log, l, n, m) >= 0
  {
    SaidPrefix(log, l.cursor, n.id);
    SaidPrefix(log, l.cursor, m.id);
    ScriptShort(log, pl, m, n);
    if !l.pc.Finished? && pl.pc.Finished? {
      HeardWithinScript(log, l, pl, n, m);
    }
  }

  lemma SameStepsLeft(log: seq<Event>, l: Local, n: Node, m: Node, ev: Event)
    requires LocalInv(log, l, n, m) && (ev.origin == m.id != n.id || l.pc.Finished?)
    ensures StepsLeft(log + [ev], l, n, m) == StepsLeft(log, l, n, m)
  {
    SaidNext(log, ev, n.id);
    assert (log + [ev])[..l.cursor] == log[..l.cursor];
  }

  lemma LeftAfterSaying(log: seq<Event>, more: seq<Event>, l: Local, t: Local, n: Node, m: Node)
    requires SaysOneMore(log, more, n.id) && n.id != m.id && l.cursor == t.cursor <= |log|
    requires !l.pc.Finished? && !t.pc.Finished? && PublicationsLeft(t) < PublicationsLeft(l)
    ensures StepsLeft(more, t, n, m) < StepsLeft(log, l, n, m)
  {
    if more != log {
      SaidNext(log, more[|log|], n.id);
      assert more[..t.cursor] == log[..l.cursor];
    }
  }

  lemma LeftAfterFetching(log: seq<Event>, l: Local, t: Local, n: Node, m: Node)
    requires l.cursor + 1 == t.cursor <= |log| && n.id != m.id
    requires log[l.cursor].origin == n.id || log[l.cursor].origin == m.id
    requires !l.pc.Finished? && !t.pc.Finished? && PublicationsLeft(t) <= PublicationsLeft(l)
    ensures StepsLeft(log, t, n, m) < StepsLeft(log, l, n, m)
  {
    assert log[..l.cursor + 1] == log[..l.cursor] + [log[l.cursor]];
    SaidNext(log[..l.cursor], log[l.cursor], n.id);
    SaidNext(log[..l.cursor], log[l.cursor], m.id);
  }

  lemma PublishesLess(s: State, x: Side)
    requires Published(s, x).Some? && (s.Of(x).pc.Pushing? ==> s.Of(x).pc.next <= |s.Of(x).plan|)
    ensures var l, t := s.Of(x), Published(s, x).value.Of(x);
      && t.cursor == l.cursor && !l.pc.Finished? && !t.pc.Finished? && PublicationsLeft(t) < PublicationsLeft(l)
  {
  }

  lemma PublishShortens(s: State, x: Side, n: Node, m: Node)
    requires LocalInv(s.log, s.Of(x), n, m) && n.id != m.id && Published(s, x).Some?
    ensures var t := Published(s, x).value;
      t.Of(x).cursor <= |t.log| && StepsLeft(t.log, t.Of(x), n, m) < StepsLeft(s.log, s.Of(x), n, m)
  {
    PublishedShape(s, x);
    PublishesLess(s, x);
    LeftAfterSaying(s.log, Published(s, x).value.log, s.Of(x), Published(s, x).value.Of(x), n, m);
  }

  lemma TookNoMore(l: Local, ev: Event, plan: seq<Path>, now: nat)
    requires Took(l, ev, plan, now).Some?
    ensures var t := Took(l, ev, plan, now).value;
      && t.cursor == l.cursor + 1 && PublicationsLeft(t) <= PublicationsLeft(l) && (t.pc.Finished? ==> l.pc.Draining?)
  {
    if l.pc.Listening? && ev.OpManifest? {
      ListedOnce(plan, l.node.files.Keys);
    }
  }

  lemma FetchShortens(s: State, x: Side, plan: seq<Path>, now: nat, n: Node, m: Node)
    requires LocalInv(s.log, s.Of(x), n, m) && LocalInv(s.log, s.Of(x.Other()), m, n) && n.id != m.id
    requires FromBoth(s.log, n, m) && Next(s, x, Fetch(plan, now)).Some?
    ensures var t := Next(s, x, Fetch(plan, now)).value;
      t.Of(x).cursor <= |t.log| && StepsLeft(t.log, t.Of(x), n, m) < StepsLeft(s.log, s.Of(x), n, m)
  {
    var t, l := Next(s, x, Fetch(plan, now)).value.Of(x), s.Of(x);
    if s.log[l.cursor].origin != n.id {
      TookNoMore(l, s.log[l.cursor], plan, now);
    }
    if t.pc.Finished? {
      DoneIsNew(s.log, l, s.Of(x.Other()), n, m);
    } else {
      LeftAfterFetching(s.log, l, t, n, m);
    }
  }

  /** A node that is to hear "done" has a step left for it. */
  lemma DoneIsNew(log: seq<Event>, l: Local, pl: Local, n: Node, m: Node)
    requires LocalInv(log, l, n, m) && LocalInv(log, pl, m, n) && n.id != m.id && l.pc.Draining?
    requires l.cursor < |log| && log[l.cursor].origin == m.id
    ensures StepsLeft(log, l, n, m) > 0
  {
    NextHeard(log, l, pl, n, m);
    ScriptShort(log, pl, m, n);
    SaidPrefix(log, l.cursor, n.id);
  }

  function NodeOfSide(x: Side, na: Node, nb: Node): Node {
    if x.A? then na else nb
  }

  function Left(s: State, x: Side, na: Node, nb: Node): int
    requires s.Of(x).cursor <= |s.log|
  {
    StepsLeft(s.log, s.Of(x), NodeOfSide(x, na, nb), NodeOfSide(x.Other(), na, nb))
  }

  /** Each step of a node that reconciles brings it nearer to its end, and nothing the peer does takes it
      further away. */
  lemma StepShortens(s: State, x: Side, step: Step, na: Node, nb: Node)
    requires Inv(s, na, nb) && Next(s, x, step).Some?
    ensures var t := Next(s, x, step).value;
      && t.Of(x).cursor <= |t.log| && t.Of(x.Other()).cursor <= |t.log|
      && Left(t, x.Other(), na, nb) == Left(s, x.Other(), na, nb)
      && if step.GoOn? then Left(t, x, na, nb) == Left(s, x, na, nb) else Left(t, x, na, nb) < Left(s, x, na, nb)
  {
    var n, m, t := NodeOfSide(x, na, nb), NodeOfSide(x.Other(), na, nb), Next(s, x, step).value;
    match step
    case Publish =>
      PublishShortens(s, x, n, m);
      PublishedShape(s, x);
      if t.log != s.log {
        SameStepsLeft(s.log, s.Of(x.Other()), m, n, t.log[|s.log|]);
      }
    case Fetch(plan, now) =>
      FetchInv(s, x, plan, now, n, m);
      FetchShortens(s, x, plan, now, n, m);
    case GoOn(ev) =>
      SameStepsLeft(s.log, s.Of(x), n, m, ev);
      SameStepsLeft(s.log, s.Of(x.Other()), m, n, ev);
  }

  /** How many steps of a run node `x` reconciles in. */
  function Reconciling(run: seq<(Side, Step)>, x: Side): nat {
    if run == [] then 0
    else
      var (y, step) := run[|run| - 1];
      Reconciling(run[..|run| - 1], x) + if y == x && !step.GoOn? then 1 else 0
  }

  lemma {:induction false} RunShortens(na: Node, nb: Node, run: seq<(Side, Step)>, x: Side)
    requires na.id != nb.id && RunFrom(Start(na, nb), run).Some?
    ensures var s := RunFrom(Start(na, nb), run).value;
      s.Of(x).cursor <= |s.log| && Reconciling(run, x) + Left(s, x, na, nb) <= Left(Start(na, nb), x, na, nb)
  {
    RunInv(na, nb, run);
    if run != [] {
      var front := run[..|run| - 1];
      var (y, step) := run[|run| - 1];
      RunShortens(na, nb, front, x);
      RunInv(na, nb, front);
      StepShortens(RunFrom(Start(na, nb), front).value, y, step, na, nb);
      assert x == y || x == y.Other();
    }
  }

  /** In every run, whatever its peer does and however long it goes on, a node reconciles in at most two
      steps for each of its own files, one for each of its peer's, and six more. */
  lemma ReconcilesInBound(na: Node, nb: Node, run: seq<(Side, Step)>, x: Side)
    requires na.id != nb.id && RunFrom(Start(na, nb), run).Some?
    ensures Reconciling(run, x) <= 2 * |NodeOfSide(x, na, nb).files| + |NodeOfSide(x.Other(), na, nb).files| + 6
  {
    RunShortens(na, nb, run, x);
    RunInv(na, nb, run);
    var s := RunFrom(Start(na, nb), run).value;
    StepsLeftNat(s.log, s.Of(x), s.Of(x.Other()), NodeOfSide(x, na, nb), NodeOfSide(x.Other(), na, nb));
  }
}
