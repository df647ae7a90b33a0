/** Reconciliation as a run of two nodes over one ordered stream, in any interleaving
    (internal/syncfs/reconcile.go): whatever the interleaving, both end with the union. A node that has
    finished goes live, and publishes changes while its peer may still be draining. */
module ReconcileRun {
  import opened Outcomes
  import opened Paths
  import opened Events
  import opened Bridge
  import opened Reconciliation
  import opened Union
  import S = Session

  type Side = S.Side

  /** Where a node is in Reconcile. */
  datatype Pc =
    | Announcing          // its manifest is to be published
    | Listening           // for the peer's manifest
    | Pushing(next: nat)  // that many paths of the plan are pushed; after the last, "done"
    | Draining
    | Finished
    | Broken              // an op that is not expected

  /** A node, its cursor, the paths it pushes, and the messages of the peer it has drained, each with the
      second it was processed at. */
  datatype Local = Local(node: Node, pc: Pc, cursor: nat, plan: seq<Path>, heard: seq<Message>)

  datatype State = State(a: Local, b: Local, log: seq<Event>) {
    function Of(x: Side): Local {
      if x.A? then a else b
    }

    function With(x: Side, l: Local): State {
      if x.A? then this.(a := l) else this.(b := l)
    }
  }

  /** A publication, or the next message, of a node that reconciles; `plan` is the order a manifest's
      differences are pushed in. A node that has finished publishes whatever change it likes. */
  datatype Step = Publish | Fetch(plan: seq<Path>, now: nat) | GoOn(ev: Event)

  function Start(na: Node, nb: Node): State {
    State(Local(na, Announcing, 0, [], []), Local(nb, Announcing, 0, [], []), [])
  }

  function Append(s: State, x: Side, l: Local, ev: Event): State {
    s.With(x, l).(log := s.log + [ev])
  }

  function Published(s: State, x: Side): Option<State> {
    var l := s.Of(x);
    match l.pc
    case Announcing => Some(Append(s, x, l.(pc := Listening), OpManifest(l.node.id, ScanManifest(l.node.files))))
    case Pushing(k) =>
      if k >= |l.plan| then Some(Append(s, x, l.(pc := Draining), ReconcileDone(l.node.id)))
      else if l.plan[k] !in l.node.files then Some(s.With(x, l.(pc := Pushing(k + 1))))
      else Some(Append(s, x, l.(node := Wrote(l.node, l.plan[k]), pc := Pushing(k + 1)), WriteEvent(l.node, l.plan[k])))
    case _ => None
  }

  /** What a message of the peer does to a node; None when the file system refuses it. */
  ghost function Took(l: Local, ev: Event, plan: seq<Path>, now: nat): Option<Local> {
    var m := l.(cursor := l.cursor + 1);
    match l.pc
    case Listening =>
      if !ev.OpManifest? then Some(m.(pc := Broken))
      else if !IsDiff(plan, ScanManifest(l.node.files), ev.manifest) then None
      else Some(m.(pc := Pushing(0), plan := plan))
    case Draining =>
      if ev.ReconcileDone? then Some(m.(pc := Finished))
      else if !ev.Write? then Some(m.(pc := Broken))
      else
        (match Received(l.node, ev, now)
         case Err(_) => None
         case Ok((node, _)) => Some(m.(node := node, heard := l.heard + [(ev, now)])))
    case _ => None
  }

  ghost function Next(s: State, x: Side, step: Step): Option<State> {
    var l := s.Of(x);
    match step
    case Publish => Published(s, x)
    case Fetch(plan, now) =>
      if !(l.pc.Listening? || l.pc.Draining?) || l.cursor >= |s.log| then None
      else if s.log[l.cursor].origin == l.node.id then Some(s.With(x, l.(cursor := l.cursor + 1)))
      else
        (match Took(l, s.log[l.cursor], plan, now)
         case None => None
         case Some(m) => Some(s.With(x, m)))
    case GoOn(ev) =>
      if l.pc.Finished? && ev.origin == l.node.id && IsMutation(ev) then Some(s.(log := s.log + [ev])) else None
  }

  ghost function RunFrom(s: State, run: seq<(Side, Step)>): Option<State> {
    if run == [] then Some(s)
    else
      match RunFrom(s, run[..|run| - 1])
      case None => None
      case Some(before) => Next(before, run[|run| - 1].0, run[|run| - 1].1)
  }

  // ---- What a node has said, and heard ----

  /** The messages of one author. */
  function Said(log: seq<Event>, id: MachineId): seq<Event> {
    if log == [] then []
    else
      Said(log[..|log| - 1], id) + if log[|log| - 1].origin == id then [log[|log| - 1]] else []
  }

  /** What a node that started as `n` has said when it is at `pc`. */
  function Script(n: Node, pc: Pc, plan: seq<Path>): seq<Event> {
    match pc
    case Announcing => []
    case Listening => [OpManifest(n.id, ScanManifest(n.files))]
    case Pushing(k) =>
      [OpManifest(n.id, ScanManifest(n.files))] + PushLog(n, if k <= |plan| then plan[..k] else plan)
    case _ => [OpManifest(n.id, ScanManifest(n.files))] + PushLog(n, plan) + [ReconcileDone(n.id)]
  }

  function EventsOf(ms: seq<Message>): seq<Event> {
    seq(|ms|, i requires 0 <= i < |ms| => ms[i].0)
  }

  /** What a node has said: its script, and live changes once it has finished. */
  predicate HasSaid(l: Local, n: Node, said: seq<Event>) {
    if l.pc.Finished? then Script(n, l.pc, l.plan) <= said else said == Script(n, l.pc, l.plan)
  }

  /** What a node has heard when it is at `pc`, given what it has drained. */
  predicate HasHeard(l: Local, m: Node, heard: seq<Event>) {
    match l.pc
    case Announcing => heard == []
    case Listening => heard == []
    case Pushing(_) => heard == [OpManifest(m.id, ScanManifest(m.files))]
    case Draining => heard == [OpManifest(m.id, ScanManifest(m.files))] + EventsOf(l.heard)
    case Finished => heard == [OpManifest(m.id, ScanManifest(m.files))] + EventsOf(l.heard) + [ReconcileDone(m.id)]
    case Broken => false
  }

  /** The node, from how it started and what it has pushed and drained. */
  predicate NodeIs(l: Local, n: Node) {
    match l.pc
    case Announcing => l.node == n && l.heard == []
    case Listening => l.node == n && l.heard == []
    case Pushing(k) => k <= |l.plan| && l.node == Pushed(n, l.plan[..k]) && l.heard == []
    case _ => Drain(Pushed(n, l.plan), l.heard) == (l.node, Waiting)
  }

  /** Node `x`, which started as `n`, with a peer that started as `m`. */
  ghost predicate LocalInv(log: seq<Event>, l: Local, n: Node, m: Node) {
    && l.node.id == n.id && l.cursor <= |log|
    && HasSaid(l, n, Said(log, n.id))
    && HasHeard(l, m, Said(log[..l.cursor], m.id)) && NodeIs(l, n)
    && (l.pc.Pushing? || l.pc.Draining? || l.pc.Finished? ==>
          IsDiff(l.plan, ScanManifest(n.files), ScanManifest(m.files)))
  }

  ghost predicate Inv(s: State, na: Node, nb: Node) {
    && na.id != nb.id && LocalInv(s.log, s.a, na, nb) && LocalInv(s.log, s.b, nb, na) && FromBoth(s.log, na, nb)
  }

  predicate FromBoth(log: seq<Event>, n: Node, m: Node) {
    forall i :: 0 <= i < |log| ==> log[i].origin == n.id || log[i].origin == m.id
  }

  lemma SaidNext(log: seq<Event>, ev: Event, id: MachineId)
    ensures Said(log + [ev], id) == Said(log, id) + if ev.origin == id then [ev] else []
  {
    assert (log + [ev])[..|log|] == log;
  }

  lemma {:induction false} SaidPrefix(log: seq<Event>, k: nat, id: MachineId)
    requires k <= |log|
    ensures Said(log[..k], id) <= Said(log, id)
    ensures k < |log| && log[k].origin == id ==>
      |Said(log[..k], id)| < |Said(log, id)| && Said(log, id)[|Said(log[..k], id)|] == log[k]
    decreases |log| - k
  {
    if k == |log| {
      assert log[..k] == log;
    } else {
      assert log[..k + 1][..k] == log[..k];
      SaidPrefix(log, k + 1, id);
    }
  }

  // ---- Every step keeps it ----

  /** A message by the peer changes nothing about what a node has said or heard. */
  lemma PeerSpoke(log: seq<Event>, l: Local, n: Node, m: Node, ev: Event)
    requires LocalInv(log, l, n, m) && ev.origin != n.id
    ensures LocalInv(log + [ev], l, n, m)
  {
    SaidNext(log, ev, n.id);
    assert (log + [ev])[..l.cursor] == log[..l.cursor];
  }

  lemma PushedOne(n: Node, plan: seq<Path>, k: nat)
    requires k < |plan|
    ensures var before := Pushed(n, plan[..k]);
      && Pushed(n, plan[..k + 1]) == (if plan[k] in before.files then Wrote(before, plan[k]) else before)
      && PushLog(n, plan[..k + 1])
         == PushLog(n, plan[..k]) + if plan[k] in before.files then [WriteEvent(before, plan[k])] else []
  {
    assert plan[..k + 1][..k] == plan[..k];
  }

  /** The node's own publication, with the script one message on. */
  lemma OwnSpoke(log: seq<Event>, l: Local, t: Local, n: Node, m: Node, ev: Event)
    requires LocalInv(log, l, n, m) && ev.origin == n.id != m.id && t.node.id == n.id
    requires !l.pc.Finished? && !t.pc.Finished?
    requires Script(n, t.pc, t.plan) == Script(n, l.pc, l.plan) + [ev] && t.cursor == l.cursor && t.heard == l.heard
    requires HasHeard(t, m, Said(log[..l.cursor], m.id)) && NodeIs(t, n)
    requires t.pc.Pushing? || t.pc.Draining? || t.pc.Finished? ==>
      IsDiff(t.plan, ScanManifest(n.files), ScanManifest(m.files))
    ensures LocalInv(log + [ev], t, n, m)
  {
    SaidNext(log, ev, n.id);
    assert (log + [ev])[..l.cursor] == log[..l.cursor];
  }

  lemma AnnouncedInv(log: seq<Event>, l: Local, n: Node, m: Node)
    requires LocalInv(log, l, n, m) && n.id != m.id && l.pc.Announcing?
    ensures LocalInv(log + [OpManifest(n.id, ScanManifest(n.files))], l.(pc := Listening), n, m)
  {
    OwnSpoke(log, l, l.(pc := Listening), n, m, OpManifest(n.id, ScanManifest(n.files)));
  }

  lemma AllPushedInv(log: seq<Event>, l: Local, n: Node, m: Node)
    requires LocalInv(log, l, n, m) && n.id != m.id && l.pc.Pushing? && l.pc.next >= |l.plan|
    ensures LocalInv(log + [ReconcileDone(n.id)], l.(pc := Draining), n, m)
  {
    assert l.plan[..l.pc.next] == l.plan;
    OwnSpoke(log, l, l.(pc := Draining), n, m, ReconcileDone(n.id));
  }

  lemma ScriptNext(n: Node, plan: seq<Path>, k: nat)
    requires k < |plan|
    ensures var before := Pushed(n, plan[..k]);
      Script(n, Pushing(k + 1), plan)
      == Script(n, Pushing(k), plan) + if plan[k] in before.files then [WriteEvent(before, plan[k])] else []
  {
    PushedOne(n, plan, k);
  }

  lemma PushedInv(log: seq<Event>, l: Local, n: Node, m: Node)
    requires LocalInv(log, l, n, m) && n.id != m.id && l.pc.Pushing? && l.pc.next < |l.plan|
    requires l.plan[l.pc.next] in l.node.files
    ensures var p := l.plan[l.pc.next];
      LocalInv(log + [WriteEvent(l.node, p)], l.(pc := Pushing(l.pc.next + 1), node := Wrote(l.node, p)), n, m)
  {
    var p := l.plan[l.pc.next];
    ScriptNext(n, l.plan, l.pc.next);
    PushedOne(n, l.plan, l.pc.next);
    OwnSpoke(log, l, l.(pc := Pushing(l.pc.next + 1), node := Wrote(l.node, p)), n, m, WriteEvent(l.node, p));
  }

  lemma PassedOverInv(log: seq<Event>, l: Local, n: Node, m: Node)
    requires LocalInv(log, l, n, m) && n.id != m.id && l.pc.Pushing? && l.pc.next < |l.plan|
    requires l.plan[l.pc.next] !in l.node.files
    ensures LocalInv(log, l.(pc := Pushing(l.pc.next + 1)), n, m)
  {
    ScriptNext(n, l.plan, l.pc.next);
    PushedOne(n, l.plan, l.pc.next);
  }

  /** At most one message more, by `id`. */
  predicate SaysOneMore(log: seq<Event>, more: seq<Event>, id: MachineId) {
    more == log || (|more| == |log| + 1 && more == log + [more[|log|]] && more[|log|].origin == id)
  }

  lemma PublishedShape(s: State, x: Side)
    requires Published(s, x).Some?
    ensures var t := Published(s, x).value;
      t.Of(x.Other()) == s.Of(x.Other()) && SaysOneMore(s.log, t.log, s.Of(x).node.id)
  {
  }

  lemma PublishedInv(s: State, x: Side, n: Node, m: Node)
    requires LocalInv(s.log, s.Of(x), n, m) && n.id != m.id && Published(s, x).Some?
    ensures var t := Published(s, x).value; LocalInv(t.log, t.Of(x), n, m)
  {
    var l := s.Of(x);
    match l.pc
    case Announcing => AnnouncedInv(s.log, l, n, m);
    case Pushing(k) =>
      if k >= |l.plan| {
        AllPushedInv(s.log, l, n, m);
      } else if l.plan[k] in l.node.files {
        PushedInv(s.log, l, n, m);
      } else {
        PassedOverInv(s.log, l, n, m);
      }
  }

  lemma {:induction false} PushLogWrites(n: Node, ps: seq<Path>)
    ensures forall ev :: ev in PushLog(n, ps) ==> ev.Write? && ev.origin == n.id
    ensures Pushed(n, ps).id == n.id
  {
    if ps != [] {
      PushLogWrites(n, ps[..|ps| - 1]);
    }
  }

  /** After its manifest a node says writes, and "done" last. */
  lemma ScriptAt(n: Node, pc: Pc, plan: seq<Path>, i: nat)
    requires i < |Script(n, pc, plan)|
    ensures i == 0 ==> Script(n, pc, plan)[i] == OpManifest(n.id, ScanManifest(n.files))
    ensures i > 0 ==> var ev := Script(n, pc, plan)[i];
      ev.Write? || (ev == ReconcileDone(n.id) && i == |Script(n, pc, plan)| - 1 && i == |PushLog(n, plan)| + 1
                    && (pc.Draining? || pc.Finished? || pc.Broken?))
  {
    match pc
    case Pushing(k) => PushLogWrites(n, if k <= |plan| then plan[..k] else plan);
    case _ => PushLogWrites(n, plan);
  }

  lemma {:induction false} DrainThen(n: Node, ms: seq<Message>, node: Node, w: Message)
    requires Drain(n, ms) == (node, Waiting)
    ensures Drain(n, ms + [w]) == Drain(node, [w])
    decreases |ms|
  {
    if ms == [] {
      assert ms + [w] == [w];
    } else {
      assert (ms + [w])[1..] == ms[1..] + [w];
      if ms[0].0.origin == n.id {
        DrainThen(n, ms[1..], node, w);
      } else {
        DrainThen(Received(n, ms[0].0, ms[0].1).value.0, ms[1..], node, w);
      }
    }
  }

  lemma EventsOfNext(ms: seq<Message>, w: Message)
    ensures EventsOf(ms + [w]) == EventsOf(ms) + [w.0]
  {
  }

  lemma {:induction false} WaitingHeardNoDone(n: Node, ms: seq<Message>, i: nat)
    requires Drain(n, ms).1 == Waiting && i < |ms| && ms[i].0.origin != n.id
    ensures !ms[i].0.ReconcileDone?
    decreases |ms|
  {
    if i > 0 {
      if ms[0].0.origin == n.id {
        WaitingHeardNoDone(n, ms[1..], i - 1);
      } else {
        ReceivedParts(n, ms[0].0, ms[0].1);
        WaitingHeardNoDone(Received(n, ms[0].0, ms[0].1).value.0, ms[1..], i - 1);
      }
    }
  }

  lemma {:induction false} SaidOrigin(log: seq<Event>, id: MachineId)
    ensures forall ev :: ev in Said(log, id) ==> ev.origin == id
  {
    if log != [] {
      SaidOrigin(log[..|log| - 1], id);
    }
  }

  /** Nothing that a node has drained is a "done". */
  lemma NoneIsDone(log: seq<Event>, l: Local, n: Node, m: Node)
    requires LocalInv(log, l, n, m) && n.id != m.id && (l.pc.Draining? || l.pc.Finished?)
    ensures forall k :: 0 <= k < |l.heard| ==> !EventsOf(l.heard)[k].ReconcileDone?
  {
    var heard := Said(log[..l.cursor], m.id);
    SaidOrigin(log[..l.cursor], m.id);
    PushLogWrites(n, l.plan);
    forall k | 0 <= k < |l.heard| ensures !EventsOf(l.heard)[k].ReconcileDone? {
      assert heard[k + 1] == EventsOf(l.heard)[k] && heard[k + 1] in heard;
      WaitingHeardNoDone(Pushed(n, l.plan), l.heard, k);
    }
  }

  /** The "done" that ends a node's drain is the first it has heard. */
  lemma DoneIsLast(log: seq<Event>, l: Local, n: Node, m: Node)
    requires LocalInv(log, l, n, m) && n.id != m.id && l.pc.Finished?
    ensures var heard := Said(log[..l.cursor], m.id);
      && |heard| > 1 && heard[|heard| - 1] == ReconcileDone(m.id)
      && forall i :: 0 <= i < |heard| - 1 ==> !heard[i].ReconcileDone?
  {
    NoneIsDone(log, l, n, m);
  }

  lemma PrefixesAgree<T>(s: seq<T>, t: seq<T>, whole: seq<T>, i: nat)
    requires s <= whole && t <= whole && i < |s| && i < |t|
    ensures s[i] == t[i]
  {
  }

  predicate NoDone(said: seq<Event>) {
    forall i :: 0 <= i < |said| ==> !said[i].ReconcileDone?
  }

  /** A node that has not finished has heard no "done". */
  lemma NoDoneHeard(log: seq<Event>, l: Local, n: Node, m: Node)
    requires LocalInv(log, l, n, m) && n.id != m.id && !l.pc.Finished?
    ensures NoDone(Said(log[..l.cursor], m.id))
  {
    if l.pc.Draining? {
      NoneIsDone(log, l, n, m);
    }
  }

  /** The peer's next message, by how much of the peer has been heard. */
  lemma NextHeard(log: seq<Event>, l: Local, pl: Local, n: Node, m: Node)
    requires LocalInv(log, l, n, m) && LocalInv(log, pl, m, n) && n.id != m.id && !l.pc.Finished?
    requires l.cursor < |log| && log[l.cursor].origin == m.id
    ensures var heard := Said(log[..l.cursor], m.id);
      && Said(log[..l.cursor + 1], m.id) == heard + [log[l.cursor]]
      && |heard| < |Script(m, pl.pc, pl.plan)| && Script(m, pl.pc, pl.plan)[|heard|] == log[l.cursor]
  {
    SaidPrefix(log, l.cursor, m.id);
    assert log[..l.cursor + 1] == log[..l.cursor] + [log[l.cursor]];
    SaidNext(log[..l.cursor], log[l.cursor], m.id);
    if pl.pc.Finished? {
      HeardWithinScript(log, l, pl, n, m);
    }
  }

  lemma HeardWithinScript(log: seq<Event>, l: Local, pl: Local, n: Node, m: Node)
    requires LocalInv(log, l, n, m) && LocalInv(log, pl, m, n) && n.id != m.id && !l.pc.Finished? && pl.pc.Finished?
    ensures |Said(log[..l.cursor], m.id)| < |Script(m, pl.pc, pl.plan)|
  {
    var heard, script := Said(log[..l.cursor], m.id), Script(m, pl.pc, pl.plan);
    SaidPrefix(log, l.cursor, m.id);
    NoDoneHeard(log, l, n, m);
    if |heard| >= |script| {
      PrefixesAgree(heard, script, Said(log, m.id), |script| - 1);
      assert false;
    }
  }

  lemma DrainedOne(log: seq<Event>, l: Local, n: Node, ev: Event, now: nat)
    requires l.node.id == n.id && l.pc.Draining? && NodeIs(l, n) && ev.Write? && ev.origin != n.id
    requires Received(l.node, ev, now).Ok?
    ensures var node := Received(l.node, ev, now).value.0;
      && node.id == n.id && Drain(Pushed(n, l.plan), l.heard + [(ev, now)]) == (node, Waiting)
      && EventsOf(l.heard + [(ev, now)]) == EventsOf(l.heard) + [ev]
  {
    DrainThen(Pushed(n, l.plan), l.heard, l.node, (ev, now));
    EventsOfNext(l.heard, (ev, now));
    ReceivedParts(l.node, ev, now);
  }

  /** What the peer's next message can be. */
  lemma NextIs(log: seq<Event>, l: Local, pl: Local, n: Node, m: Node)
    requires LocalInv(log, l, n, m) && LocalInv(log, pl, m, n) && n.id != m.id && !l.pc.Finished?
    requires l.cursor < |log| && log[l.cursor].origin == m.id
    ensures var ev, heard := log[l.cursor], Said(log[..l.cursor], m.id);
      && Said(log[..l.cursor + 1], m.id) == heard + [ev]
      && if heard == [] then ev == OpManifest(m.id, ScanManifest(m.files)) else ev.Write? || ev == ReconcileDone(m.id)
  {
    NextHeard(log, l, pl, n, m);
    ScriptAt(m, pl.pc, pl.plan, |Said(log[..l.cursor], m.id)|);
  }

  lemma TookManifest(log: seq<Event>, l: Local, pl: Local, n: Node, m: Node, plan: seq<Path>, now: nat)
    requires LocalInv(log, l, n, m) && LocalInv(log, pl, m, n) && n.id != m.id && l.pc.Listening?
    requires l.cursor < |log| && log[l.cursor].origin == m.id && Took(l, log[l.cursor], plan, now).Some?
    ensures LocalInv(log, Took(l, log[l.cursor], plan, now).value, n, m)
  {
    NextIs(log, l, pl, n, m);
  }

  lemma TookWrite(log: seq<Event>, l: Local, pl: Local, n: Node, m: Node, plan: seq<Path>, now: nat)
    requires LocalInv(log, l, n, m) && LocalInv(log, pl, m, n) && n.id != m.id && l.pc.Draining?
    requires l.cursor < |log| && log[l.cursor].origin == m.id && Took(l, log[l.cursor], plan, now).Some?
    requires log[l.cursor].Write?
    ensures LocalInv(log, Took(l, log[l.cursor], plan, now).value, n, m)
  {
    NextIs(log, l, pl, n, m);
    DrainedOne(log, l, n, log[l.cursor], now);
  }

  lemma TookDone(log: seq<Event>, l: Local, pl: Local, n: Node, m: Node, plan: seq<Path>, now: nat)
    requires LocalInv(log, l, n, m) && LocalInv(log, pl, m, n) && n.id != m.id && l.pc.Draining?
    requires l.cursor < |log| && log[l.cursor].origin == m.id && !log[l.cursor].Write?
    ensures LocalInv(log, Took(l, log[l.cursor], plan, now).value, n, m)
  {
    NextIs(log, l, pl, n, m);
  }

  /** The peer's next message fits where the node is. */
  lemma TookInv(log: seq<Event>, l: Local, pl: Local, n: Node, m: Node, plan: seq<Path>, now: nat)
    requires LocalInv(log, l, n, m) && LocalInv(log, pl, m, n) && n.id != m.id
    requires l.cursor < |log| && log[l.cursor].origin == m.id && Took(l, log[l.cursor], plan, now).Some?
    ensures LocalInv(log, Took(l, log[l.cursor], plan, now).value, n, m)
  {
    if l.pc.Listening? {
      TookManifest(log, l, pl, n, m, plan, now);
    } else if log[l.cursor].Write? {
      TookWrite(log, l, pl, n, m, plan, now);
    } else {
      TookDone(log, l, pl, n, m, plan, now);
    }
  }

  lemma OwnSkipped(log: seq<Event>, l: Local, n: Node, m: Node)
    requires LocalInv(log, l, n, m) && n.id != m.id && l.cursor < |log| && log[l.cursor].origin == n.id
    ensures LocalInv(log, l.(cursor := l.cursor + 1), n, m)
  {
    assert log[..l.cursor + 1] == log[..l.cursor] + [log[l.cursor]];
    SaidNext(log[..l.cursor], log[l.cursor], m.id);
  }

  lemma FetchInv(s: State, x: Side, plan: seq<Path>, now: nat, n: Node, m: Node)
    requires LocalInv(s.log, s.Of(x), n, m) && LocalInv(s.log, s.Of(x.Other()), m, n) && n.id != m.id
    requires FromBoth(s.log, n, m)
    requires Next(s, x, Fetch(plan, now)).Some?
    ensures var t := Next(s, x, Fetch(plan, now)).value;
      t.log == s.log && t.Of(x.Other()) == s.Of(x.Other()) && LocalInv(s.log, t.Of(x), n, m)
  {
    if s.log[s.Of(x).cursor].origin == n.id {
      OwnSkipped(s.log, s.Of(x), n, m);
    } else {
      TookInv(s.log, s.Of(x), s.Of(x.Other()), n, m, plan, now);
    }
  }

  lemma StepInv(s: State, x: Side, step: Step, na: Node, nb: Node)
    requires Inv(s, na, nb) && Next(s, x, step).Some?
    ensures Inv(Next(s, x, step).value, na, nb)
  {
    var n, m := if x.A? then na else nb, if x.A? then nb else na;
    match step
    case Publish => BothPublishedInv(s, x, n, m);
    case Fetch(plan, now) => FetchInv(s, x, plan, now, n, m);
    case GoOn(ev) => BothWentOnInv(s, x, n, m, ev);
  }

  lemma BothWentOnInv(s: State, x: Side, n: Node, m: Node, ev: Event)
    requires LocalInv(s.log, s.Of(x), n, m) && LocalInv(s.log, s.Of(x.Other()), m, n) && n.id != m.id
    requires FromBoth(s.log, n, m) && s.Of(x).pc.Finished? && ev.origin == n.id
    ensures LocalInv(s.log + [ev], s.Of(x), n, m) && LocalInv(s.log + [ev], s.Of(x.Other()), m, n)
    ensures FromBoth(s.log + [ev], n, m)
  {
    WentOnInv(s.log, s.Of(x), n, m, ev);
    PeerSpoke(s.log, s.Of(x.Other()), m, n, ev);
  }

  /** What a node says once it has finished comes after its script. */
  lemma WentOnInv(log: seq<Event>, l: Local, n: Node, m: Node, ev: Event)
    requires LocalInv(log, l, n, m) && ev.origin == n.id != m.id && l.pc.Finished?
    ensures LocalInv(log + [ev], l, n, m)
  {
    SaidNext(log, ev, n.id);
    SaidNext(log, ev, m.id);
    assert (log + [ev])[..l.cursor] == log[..l.cursor];
  }

  lemma BothPublishedInv(s: State, x: Side, n: Node, m: Node)
    requires LocalInv(s.log, s.Of(x), n, m) && LocalInv(s.log, s.Of(x.Other()), m, n) && n.id != m.id
    requires FromBoth(s.log, n, m) && Published(s, x).Some?
    ensures var t := Published(s, x).value;
      LocalInv(t.log, t.Of(x), n, m) && LocalInv(t.log, t.Of(x.Other()), m, n) && FromBoth(t.log, n, m)
  {
    PublishedInv(s, x, n, m);
    PublishedShape(s, x);
    var t := Published(s, x).value;
    SaidOneMore(s.log, t.log, s.Of(x.Other()), n, m);
  }

  lemma SaidOneMore(log: seq<Event>, more: seq<Event>, pl: Local, n: Node, m: Node)
    requires SaysOneMore(log, more, n.id) && LocalInv(log, pl, m, n) && n.id != m.id && FromBoth(log, n, m)
    ensures LocalInv(more, pl, m, n) && FromBoth(more, n, m)
  {
    if more != log {
      PeerSpoke(log, pl, m, n, more[|log|]);
    }
  }

  lemma {:induction false} RunInv(na: Node, nb: Node, run: seq<(Side, Step)>)
    requires na.id != nb.id && RunFrom(Start(na, nb), run).Some?
    ensures Inv(RunFrom(Start(na, nb), run).value, na, nb)
  {
    if run != [] {
      RunInv(na, nb, run[..|run| - 1]);
      StepInv(RunFrom(Start(na, nb), run[..|run| - 1]).value, run[|run| - 1].0, run[|run| - 1].1, na, nb);
    }
  }

  // ---- The end of a run ----

  function TimesOf(ms: seq<Message>): seq<nat> {
    seq(|ms|, i requires 0 <= i < |ms| => ms[i].1)
  }

  /** A node that has finished has drained exactly what the peer pushed. */
  lemma HeardAll(log: seq<Event>, l: Local, pl: Local, n: Node, m: Node)
    requires LocalInv(log, l, n, m) && LocalInv(log, pl, m, n) && n.id != m.id && l.pc.Finished?
    ensures Said(log[..l.cursor], m.id) == Script(m, pl.pc, pl.plan) && (pl.pc.Draining? || pl.pc.Finished?)
  {
    var heard, script := Said(log[..l.cursor], m.id), Script(m, pl.pc, pl.plan);
    var last := |heard| - 1;
    SaidPrefix(log, l.cursor, m.id);
    DoneIsLast(log, l, n, m);
    EndsBeforeScript(heard, script, Said(log, m.id), log, pl, m, n);
    PrefixesAgree(heard, script, Said(log, m.id), last);
    ScriptAt(m, pl.pc, pl.plan, last);
  }

  /** A first "done" heard is not beyond the script. */
  lemma EndsBeforeScript(heard: seq<Event>, script: seq<Event>, said: seq<Event>, log: seq<Event>, pl: Local,
                         m: Node, n: Node)
    requires LocalInv(log, pl, m, n) && said == Said(log, m.id) && script == Script(m, pl.pc, pl.plan)
    requires heard <= said && heard != [] && NoDone(heard[..|heard| - 1])
    ensures |heard| <= |script|
  {
    if pl.pc.Finished? {
      var front, k := heard[..|heard| - 1], |script| - 1;
      assert script[k].ReconcileDone? && said[k] == script[k];
      assert forall i :: 0 <= i < |front| ==> front[i] == said[i];
    }
  }

  lemma Between<T>(a: T, x: seq<T>, y: seq<T>, z: T)
    requires [a] + x + [z] == [a] + y + [z]
    ensures x == y
  {
    assert x == ([a] + x + [z])[1..|x| + 1];
  }

  lemma DrainedAll(log: seq<Event>, l: Local, pl: Local, n: Node, m: Node)
    requires LocalInv(log, l, n, m) && LocalInv(log, pl, m, n) && n.id != m.id && l.pc.Finished?
    ensures pl.pc.Draining? || pl.pc.Finished?
    ensures EventsOf(l.heard) == PushLog(m, pl.plan) && |PushLog(m, pl.plan)| == |pl.plan| == |TimesOf(l.heard)|
  {
    HeardAll(log, l, pl, n, m);
    Between(OpManifest(m.id, ScanManifest(m.files)), EventsOf(l.heard), PushLog(m, pl.plan), ReconcileDone(m.id));
    if pl.plan != [] {
      PushLogAt(m, pl.plan, 0);
    }
  }

  lemma {:induction false} FromPeerAll(ms: seq<Message>, id: MachineId)
    requires forall i :: 0 <= i < |ms| ==> ms[i].0.origin != id
    ensures FromPeer(ms, id) == ms
  {
    if ms != [] {
      FromPeerAll(ms[1..], id);
      assert ms == [ms[0]] + ms[1..];
    }
  }

  lemma FinishedIsUnion(log: seq<Event>, l: Local, pl: Local, n: Node, m: Node)
    requires LocalInv(log, l, n, m) && LocalInv(log, pl, m, n) && l.pc.Finished?
    requires n.id != m.id && n.versions == map[] && m.versions == map[] && Mirrors(n, m)
    requires |pl.plan| <= |TimesOf(l.heard)| ==> Separate(n.files, m.files, m.id, pl.plan, TimesOf(l.heard))
    ensures |pl.plan| == |TimesOf(l.heard)| && IsUnion(l.node.files, n.files, m.files, m.id)
  {
    var times, w := TimesOf(l.heard), (ReconcileDone(m.id), 0);
    DrainedAll(log, l, pl, n, m);
    PushLogWrites(m, pl.plan);
    DrainThen(Pushed(n, l.plan), l.heard, l.node, w);
    var msgs := l.heard + [w];
    forall i | 0 <= i < |msgs| ensures msgs[i].0.origin != n.id {
      assert i < |l.heard| ==> EventsOf(l.heard)[i] in PushLog(m, pl.plan);
    }
    FromPeerAll(msgs, n.id);
    forall i | 0 <= i < |pl.plan| ensures msgs[i] == (PushLog(m, pl.plan)[i], times[i]) {
      assert EventsOf(l.heard)[i] == msgs[i].0;
    }
    assert Delivers(msgs, n.id, m, pl.plan, times);
    DrainIsUnion(n, m, l.plan, pl.plan, times, msgs);
    assert l.node.id == n.id;
  }

  /** The conflict names that a node's drain has used, at the seconds it ran at, were new to both trees. */
  ghost predicate NamesNew(l: Local, pl: Local, n: Node, m: Node) {
    |pl.plan| <= |TimesOf(l.heard)| ==> Separate(n.files, m.files, m.id, pl.plan, TimesOf(l.heard))
  }

  /** In every interleaving of two nodes that reconcile over one stream, no node meets an op it does not
      expect. */
  lemma NeverBroken(na: Node, nb: Node, run: seq<(Side, Step)>)
    requires na.id != nb.id && RunFrom(Start(na, nb), run).Some?
    ensures var s := RunFrom(Start(na, nb), run).value; !s.a.pc.Broken? && !s.b.pc.Broken?
  {
    RunInv(na, nb, run);
  }

  /** And a node that has finished has the union: its own files as they were, the peer's one-sided files,
      one conflict copy of the peer's content for each differing path, and no more. */
  lemma RunsEndInUnion(na: Node, nb: Node, run: seq<(Side, Step)>)
    requires na.id != nb.id && na.versions == map[] && nb.versions == map[] && Mirrors(na, nb) && Mirrors(nb, na)
    requires RunFrom(Start(na, nb), run).Some?
    ensures var s := RunFrom(Start(na, nb), run).value;
      && (s.a.pc.Finished? && NamesNew(s.a, s.b, na, nb) ==> HasUnion(s.a, s.b, na, nb))
      && (s.b.pc.Finished? && NamesNew(s.b, s.a, nb, na) ==> HasUnion(s.b, s.a, nb, na))
  {
    RunInv(na, nb, run);
    var s := RunFrom(Start(na, nb), run).value;
    if s.a.pc.Finished? && NamesNew(s.a, s.b, na, nb) {
      FinishedIsUnion(s.log, s.a, s.b, na, nb);
    }
    if s.b.pc.Finished? && NamesNew(s.b, s.a, nb, na) {
      FinishedIsUnion(s.log, s.b, s.a, nb, na);
    }
  }

  /** The node's files are the union of both trees, with a conflict copy for each of the peer's pushes
      to a path of its own. */
  ghost predicate HasUnion(l: Local, pl: Local, n: Node, m: Node) {
    |pl.plan| == |TimesOf(l.heard)| && IsUnion(l.node.files, n.files, m.files, m.id)
  }

  // ---- The run does not stop before ----

  lemma {:induction false} ADiff(have: Manifest, want: Manifest, todo: set<Path>) returns (plan: seq<Path>)
    requires todo <= have.Keys
    ensures NoRepeats(plan) && forall p :: p in plan <==> p in todo && Differs(have, want, p)
    decreases todo
  {
    plan := [];
    if todo != {} {
      var p :| p in todo;
      plan := ADiff(have, want, todo - {p});
      if Differs(have, want, p) {
        plan := plan + [p];
      }
    }
  }

  /** What keeps a node from taking its next message: the file system refuses it. */
  ghost predicate Refused(s: State, x: Side, now: nat) {
    var l := s.Of(x);
    l.pc.Draining? && l.cursor < |s.log| && Received(l.node, s.log[l.cursor], now).Err?
  }

  /** A node that drains, or has drained, has said "done". */
  lemma DoneIsSaid(log: seq<Event>, l: Local, n: Node, m: Node)
    requires LocalInv(log, l, n, m) && (l.pc.Draining? || l.pc.Finished?)
    ensures !NoDone(Said(log, n.id))
  {
    var script := Script(n, l.pc, l.plan);
    assert script[|script| - 1].ReconcileDone? && script <= Said(log, n.id);
    assert Said(log, n.id)[|script| - 1] == script[|script| - 1];
  }

  /** A draining node that has consumed the stream has not heard "done": the peer has not said it. */
  lemma DoneNotSaid(log: seq<Event>, l: Local, pl: Local, n: Node, m: Node)
    requires LocalInv(log, l, n, m) && LocalInv(log, pl, m, n) && l.cursor == |log| && l.pc.Draining? && n.id != m.id
    ensures !pl.pc.Draining? && !pl.pc.Finished?
  {
    assert log[..|log|] == log;
    NoDoneHeard(log, l, n, m);
    if pl.pc.Draining? || pl.pc.Finished? {
      DoneIsSaid(log, pl, m, n);
    }
  }

  /** A node that waits at the end of the stream waits for its peer, which has something to publish or
      to read. */
  lemma PeerIsNext(log: seq<Event>, l: Local, pl: Local, n: Node, m: Node)
    requires LocalInv(log, l, n, m) && LocalInv(log, pl, m, n) && l.cursor == |log| && n.id != m.id
    requires l.pc.Listening? || l.pc.Draining?
    ensures pl.pc.Announcing? || pl.pc.Pushing? || (pl.pc.Listening? && pl.cursor < |log|)
  {
    assert log[..|log|] == log;
    if l.pc.Draining? {
      DoneNotSaid(log, l, pl, n, m);
    }
  }

  predicate Waits(l: Local) {
    l.pc.Listening? || l.pc.Draining?
  }

  /** Until both have finished, some node can take a step, unless the file system refuses it. */
  lemma NotStuck(s: State, na: Node, nb: Node, now: nat) returns (x: Side, step: Step)
    requires Inv(s, na, nb) && !(s.a.pc.Finished? && s.b.pc.Finished?)
    ensures !step.GoOn? && (Next(s, x, step).Some? || Refused(s, x, now))
  {
    var y: Side := if s.a.pc.Finished? then S.B else S.A;
    var n, m := if y.A? then na else nb, if y.A? then nb else na;
    if Waits(s.Of(y)) && s.Of(y).cursor == |s.log| {
      PeerIsNext(s.log, s.Of(y), s.Of(y.Other()), n, m);
      x := y.Other();
    } else {
      x := y;
    }
    step := CanStep(s, x, if x.A? then na else nb, if x.A? then nb else na, now);
  }

  lemma CanStep(s: State, x: Side, n: Node, m: Node, now: nat) returns (step: Step)
    requires LocalInv(s.log, s.Of(x), n, m) && LocalInv(s.log, s.Of(x.Other()), m, n) && n.id != m.id
    requires FromBoth(s.log, n, m)
    requires !s.Of(x).pc.Finished? && (Waits(s.Of(x)) ==> s.Of(x).cursor < |s.log|)
    ensures !step.GoOn? && (Next(s, x, step).Some? || Refused(s, x, now))
  {
    var l := s.Of(x);
    if !Waits(l) {
      return Publish;
    }
    var ev := s.log[l.cursor];
    if ev.origin == n.id {
      return Fetch([], now);
    }
    var plan: seq<Path> := [];
    if ev.OpManifest? {
      plan := ADiff(ScanManifest(l.node.files), ev.manifest, ScanManifest(l.node.files).Keys);
    }
    return Fetch(plan, now);
  }
}
