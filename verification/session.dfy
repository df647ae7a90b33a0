/** Runs of a two-node watch session over one shared, ordered stream: reconciliation pushes,
    watcher reports and deliveries, in any interleaving. */
module Session {
  import opened Outcomes
  import opened Paths
  import opened Version
  import opened Ratchet
  import opened Events
  import opened Bridge

  datatype Side = A | B {
    function Other(): Side {
      if A? then B else A
    }
  }

  /** A message of the stream, with how much of the stream its author had consumed. */
  datatype Record = Record(author: Side, ev: Event, at: nat)

  /** A node and its consumer's position. `edited` are the paths the user has written and the node has
      not published, or applied a write to, since. History: `aside` says where each message in conflict
      was put, `edits` at which positions of the stream the user wrote a path. */
  datatype Local = Local(node: Node, cursor: nat, edited: set<Path>, aside: map<nat, Path>, edits: set<(Path, nat)>)

  datatype State = State(a: Local, b: Local, log: seq<Record>) {
    function Of(x: Side): Local {
      if x.A? then a else b
    }

    function With(x: Side, l: Local): State {
      if x.A? then this.(a := l) else this.(b := l)
    }

    function Id(x: Side): MachineId {
      Of(x).node.id
    }
  }

  datatype Step =
    | UserWrite(path: Path, content: Content)  // a local edit of one file
    | UserTree(files: Files)                   // any other local change of the tree
    | Report(change: Change)                   // the watcher reports, publishOne runs
    | Push(path: Path)                         // pushReconciled
    | Control(ev: Event)                       // bootstrap, manifest, done
    | Deliver(now: nat)                        // the next message of the stream

  function PublishWrite(s: State, x: Side, p: Path): State
    requires p in s.Of(x).node.files
  {
    var l := s.Of(x);
    s.With(x, l.(node := Wrote(l.node, p), edited := l.edited - {p}))
     .(log := s.log + [Record(x, WriteEvent(l.node, p), l.cursor)])
  }

  /** One step of node `x`; None when the step is not possible, or ends the session in an error. */
  function Next(s: State, x: Side, step: Step): Option<State> {
    var l := s.Of(x);
    match step
    case UserWrite(p, content) =>
      Some(s.With(x, l.(node := l.node.(files := l.node.files[p := content]), edited := l.edited + {p},
                        edits := l.edits + {(p, l.cursor)})))
    case UserTree(files) => Some(s.With(x, l.(node := l.node.(files := files))))
    case Report(c) =>
      if Drops(l.node, c) then Some(s.With(x, l.(node := Reported(l.node, c))))
      else if c.Modified? then Some(PublishWrite(s, x, c.path))
      else Some(s.(log := s.log + [Record(x, ChangeEvent(l.node, c), l.cursor)]))
    case Push(p) => if p in l.node.files then Some(PublishWrite(s, x, p)) else Some(s)
    case Control(ev) =>
      if IsMutation(ev) || ev.origin != l.node.id then None
      else Some(s.(log := s.log + [Record(x, ev, l.cursor)]))
    case Deliver(now) =>
      if l.cursor >= |s.log| then None
      else
        var r := s.log[l.cursor];
        if r.author == x || !IsMutation(r.ev) then Some(s.With(x, l.(cursor := l.cursor + 1)))
        else
          match Received(l.node, r.ev, now)
          case Err(_) => None
          case Ok((node, outcome)) => Some(s.With(x, Arrived(l, node, r.ev.path, outcome)))
  }

  /** The local side once an event on `p` has been received with `outcome`. */
  function Arrived(l: Local, node: Node, p: Path, outcome: Outcome): Local {
    match outcome
    case AppliedIt => l.(node := node, cursor := l.cursor + 1, edited := l.edited - {p})
    case SetAside(q) => l.(node := node, cursor := l.cursor + 1, aside := l.aside[l.cursor := q])
    case _ => l.(node := node, cursor := l.cursor + 1)
  }

  /** The step of a report is publishOne: the node as it leaves it, and the event it publishes, if any. */
  lemma ReportIsPublishOne(s: State, x: Side, c: Change)
    ensures var t := Next(s, x, Report(c));
      && t.Some? && t.value.Of(x).node == Reported(s.Of(x).node, c) && t.value.Of(x.Other()) == s.Of(x.Other())
      && t.value.log == s.log + if Drops(s.Of(x).node, c) then []
                                else [Record(x, ChangeEvent(s.Of(x).node, c), s.Of(x).cursor)]
  {
    assert s.log + [] == s.log;
  }

  type Run = seq<(Side, Step)>

  function RunFrom(s: State, run: Run): Option<State> {
    if run == [] then Some(s)
    else
      match RunFrom(s, run[..|run| - 1])
      case None => None
      case Some(before) => Next(before, run[|run| - 1].0, run[|run| - 1].1)
  }

  /** The chain keys that start the two directions, if the session is encrypted. */
  datatype Keys = Keys(a: Term, b: Term, ad: AssociatedData) {
    function Root(x: Side): Term {
      if x.A? then a else b
    }
  }

  function StartNode(id: MachineId, files: Files, enc: Option<Keys>, x: Side): Node {
    Node(id, files, map[], EMPTY_GUARD,
         if enc.None? then None
         else Some(Chains(ChainState(enc.value.Root(x), 0), ChainState(enc.value.Root(x.Other()), 0), enc.value.ad)))
  }

  /** Two nodes at the start of a session: fresh stores and guards, mirrored chains. */
  function Start(ida: MachineId, idb: MachineId, fa: Files, fb: Files, enc: Option<Keys>): State {
    State(Local(StartNode(ida, fa, enc, A), 0, {}, map[], {}),
          Local(StartNode(idb, fb, enc, B), 0, {}, map[], {}), [])
  }

  // ---- Counting writes ----

  predicate IsWriteBy(r: Record, x: Side, p: Path) {
    r.author == x && r.ev.Write? && r.ev.path == p
  }

  /** How many of the first `k` messages are writes of `p` by `x`. */
  function WritesTo(log: seq<Record>, x: Side, p: Path, k: nat): nat
    requires k <= |log|
  {
    if k == 0 then 0 else WritesTo(log, x, p, k - 1) + if IsWriteBy(log[k - 1], x, p) then 1 else 0
  }

  /** How many of the first `k` messages are writes by `x`. */
  function WritesBy(log: seq<Record>, x: Side, k: nat): nat
    requires k <= |log|
  {
    if k == 0 then 0 else WritesBy(log, x, k - 1) + if log[k - 1].author == x && log[k - 1].ev.Write? then 1 else 0
  }

  lemma {:induction false} CountsStable(log: seq<Record>, r: Record, x: Side, p: Path, k: nat)
    requires k <= |log|
    ensures WritesTo(log + [r], x, p, k) == WritesTo(log, x, p, k)
    ensures WritesBy(log + [r], x, k) == WritesBy(log, x, k)
  {
    if k > 0 {
      CountsStable(log, r, x, p, k - 1);
    }
  }

  lemma {:induction false} WritesMonotone(log: seq<Record>, x: Side, p: Path, j: nat, k: nat)
    requires j <= k <= |log|
    ensures WritesTo(log, x, p, j) <= WritesTo(log, x, p, k)
    ensures WritesTo(log, x, p, j) == WritesTo(log, x, p, k) <==> forall i :: j <= i < k ==> !IsWriteBy(log[i], x, p)
  {
    if j < k {
      WritesMonotone(log, x, p, j, k - 1);
    }
  }

  // ---- Vectors count: the invariant ----

  /** The two machine ids. */
  datatype Ids = Ids(a: MachineId, b: MachineId) {
    function Of(x: Side): MachineId {
      if x.A? then a else b
    }
  }

  function IdsOf(s: State): Ids {
    Ids(s.Id(A), s.Id(B))
  }

  /** `v` has component `own` for `x`, `other` for its peer, and nothing else. */
  ghost predicate CountsAre(v: Vector, ids: Ids, x: Side, own: nat, other: nat) {
    forall k :: Count(v, k) == if k == ids.Of(x) then own else if k == ids.Of(x.Other()) then other else 0
  }

  /** A published vector counts the author's writes up to itself, and the peer's up to where the
      author had consumed the stream. */
  ghost predicate RecordCounts(ids: Ids, log: seq<Record>, i: nat)
    requires i < |log|
  {
    var r := log[i];
    && r.at <= i && r.ev.origin == ids.Of(r.author)
    && (r.ev.Write? ==>
          CountsAre(r.ev.version, ids, r.author,
                    WritesTo(log, r.author, r.ev.path, i + 1), WritesTo(log, r.author.Other(), r.ev.path, r.at)))
  }

  /** A stored vector counts the node's own writes, and the peer's writes it has consumed. */
  ghost predicate LocalCounts(ids: Ids, log: seq<Record>, x: Side, cursor: nat, versions: Store) {
    && cursor <= |log|
    && forall p :: CountsAre(At(versions, p), ids, x,
                             WritesTo(log, x, p, |log|), WritesTo(log, x.Other(), p, cursor))
  }

  ghost predicate CountInv(s: State) {
    && s.Id(A) != s.Id(B)
    && (forall x: Side :: LocalCounts(IdsOf(s), s.log, x, s.Of(x).cursor, s.Of(x).node.versions))
    && (forall i: nat :: i < |s.log| ==> RecordCounts(IdsOf(s), s.log, i))
  }

  lemma RecordStable(ids: Ids, log: seq<Record>, r: Record, i: nat)
    requires i < |log| && RecordCounts(ids, log, i)
    ensures RecordCounts(ids, log + [r], i)
  {
    var q := log[i];
    if q.ev.Write? {
      CountsStable(log, r, q.author, q.ev.path, i + 1);
      CountsStable(log, r, q.author.Other(), q.ev.path, q.at);
    }
  }

  /** Another's message, or one that is no write, leaves the stored counts as they are. */
  lemma LocalStable(ids: Ids, log: seq<Record>, r: Record, x: Side, cursor: nat, versions: Store)
    requires LocalCounts(ids, log, x, cursor, versions) && !(r.author == x && r.ev.Write?)
    ensures LocalCounts(ids, log + [r], x, cursor, versions)
  {
    forall p ensures CountsAre(At(versions, p), ids, x,
                       WritesTo(log + [r], x, p, |log| + 1), WritesTo(log + [r], x.Other(), p, cursor))
    {
      CountsStable(log, r, x, p, |log|);
      CountsStable(log, r, x.Other(), p, cursor);
    }
  }

  lemma PublishCounts(ids: Ids, log: seq<Record>, x: Side, cursor: nat, versions: Store, r: Record)
    requires ids.a != ids.b && LocalCounts(ids, log, x, cursor, versions)
    requires r.author == x && r.at == cursor && r.ev.Write? && r.ev.origin == ids.Of(x)
    requires r.ev.version == Bumped(At(versions, r.ev.path), ids.Of(x))
    ensures RecordCounts(ids, log + [r], |log|)
    ensures LocalCounts(ids, log + [r], x, cursor, versions[r.ev.path := r.ev.version])
  {
    forall p ensures CountsAre(At(versions[r.ev.path := r.ev.version], p), ids, x,
                       WritesTo(log + [r], x, p, |log| + 1), WritesTo(log + [r], x.Other(), p, cursor))
    {
      CountsStable(log, r, x, p, |log|);
      CountsStable(log, r, x.Other(), p, cursor);
      assert CountsAre(At(versions, p), ids, x, WritesTo(log, x, p, |log|), WritesTo(log, x.Other(), p, cursor));
    }
    assert At(versions[r.ev.path := r.ev.version], r.ev.path) == r.ev.version;
  }

  /** The node's side of a first delivery: the incoming write is new, and it dominates what is
      stored exactly when its author had consumed every write this node published to the path. */
  lemma FirstDeliveryOrder(ids: Ids, log: seq<Record>, x: Side, cursor: nat, local: Vector)
    requires ids.a != ids.b && cursor < |log| && RecordCounts(ids, log, cursor)
    requires log[cursor].author == x.Other() && log[cursor].ev.Write?
    requires CountsAre(local, ids, x, WritesTo(log, x, log[cursor].ev.path, |log|),
                       WritesTo(log, x.Other(), log[cursor].ev.path, cursor))
    ensures var r := log[cursor]; var o := Causal(r.ev.version, local);
      && (o == AAfterB || o == Concurrent)
      && (o == AAfterB <==> forall i :: r.at <= i < |log| ==> !IsWriteBy(log[i], x, r.ev.path))
  {
    var r := log[cursor];
    var v := r.ev.version;
    LeqCounts(v, local);
    LeqCounts(local, v);
    assert x.Other().Other() == x;
    assert Count(v, ids.Of(x.Other())) > Count(local, ids.Of(x.Other()));
    WritesMonotone(log, x, r.ev.path, r.at, |log|);
    assert Count(v, ids.Of(x)) <= Count(local, ids.Of(x));
    assert Leq(local, v) <==> Count(v, ids.Of(x)) == Count(local, ids.Of(x));
  }

  lemma DeliverCounts(ids: Ids, log: seq<Record>, x: Side, cursor: nat, versions: Store)
    requires ids.a != ids.b && LocalCounts(ids, log, x, cursor, versions)
    requires cursor < |log| && RecordCounts(ids, log, cursor)
    ensures LocalCounts(ids, log, x, cursor + 1,
      if log[cursor].author == x.Other() && log[cursor].ev.Write?
      then StoreAfter(versions, log[cursor].ev.path, log[cursor].ev.version) else versions)
  {
    var r := log[cursor];
    if r.author == x.Other() && r.ev.Write? {
      forall p ensures CountsAre(At(StoreAfter(versions, r.ev.path, r.ev.version), p), ids, x,
                         WritesTo(log, x, p, |log|), WritesTo(log, x.Other(), p, cursor + 1))
      {
        assert CountsAre(At(versions, p), ids, x, WritesTo(log, x, p, |log|), WritesTo(log, x.Other(), p, cursor));
        if p == r.ev.path {
          JoinedCounts(ids, log, x, cursor, At(versions, p));
        }
      }
    }
  }

  lemma JoinedCounts(ids: Ids, log: seq<Record>, x: Side, cursor: nat, local: Vector)
    requires ids.a != ids.b && cursor < |log| && RecordCounts(ids, log, cursor)
    requires log[cursor].author == x.Other() && log[cursor].ev.Write?
    requires CountsAre(local, ids, x, WritesTo(log, x, log[cursor].ev.path, |log|),
                       WritesTo(log, x.Other(), log[cursor].ev.path, cursor))
    ensures CountsAre(Adopted(local, log[cursor].ev.version), ids, x,
                      WritesTo(log, x, log[cursor].ev.path, |log|),
                      WritesTo(log, x.Other(), log[cursor].ev.path, cursor + 1))
  {
    var r := log[cursor];
    AdoptedIsJoin(local, r.ev.version);
    WritesMonotone(log, x, r.ev.path, r.at, |log|);
    assert x.Other().Other() == x;
    forall k ensures Count(Adopted(local, r.ev.version), k) == Max(Count(local, k), Count(r.ev.version, k)) {
    }
  }

  // ---- The shape of a step: every step is one of three kinds ----

  /** Nothing is published or consumed; stores and chains stay. */
  predicate IsQuiet(s: State, x: Side, t: State) {
    var l, m := s.Of(x), t.Of(x);
    && t == s.With(x, m) && m.cursor == l.cursor
    && m.node.id == l.node.id && m.node.versions == l.node.versions && m.node.enc == l.node.enc
  }

  /** Message `r` is appended; a write bumps the vector and advances the sending chain. */
  predicate IsAppend(s: State, x: Side, t: State, r: Record) {
    var l, m := s.Of(x), t.Of(x);
    && t == s.With(x, m).(log := s.log + [r]) && m.cursor == l.cursor && m.node.id == l.node.id
    && r.author == x && r.at == l.cursor && r.ev.origin == l.node.id
    && if r.ev.Write? then
         && r.ev.path in l.node.files && r.ev == WriteEvent(l.node, r.ev.path)
         && m.node == Wrote(l.node, r.ev.path)
       else m.node == l.node
  }

  /** The next message is consumed; a peer's write joins the store and advances the receiving chain. */
  predicate IsConsume(s: State, x: Side, t: State) {
    var l, m := s.Of(x), t.Of(x);
    && l.cursor < |s.log| && t == s.With(x, m) && m.cursor == l.cursor + 1 && m.node.id == l.node.id
    && var r := s.log[l.cursor];
    if r.author == x.Other() && r.ev.Write? then
      && m.node.versions == StoreAfter(l.node.versions, r.ev.path, r.ev.version)
      && Decrypted(l.node, r.ev).Ok? && m.node.enc == Decrypted(l.node, r.ev).value.0.enc
    else m.node.versions == l.node.versions && m.node.enc == l.node.enc
  }

  /** The origin of a message that this node did not write is not this node. */
  predicate NextIsForeign(s: State, x: Side) {
    s.Of(x).cursor < |s.log| && s.log[s.Of(x).cursor].author != x ==> s.log[s.Of(x).cursor].ev.origin != s.Id(x)
  }

  lemma DeliverShape(s: State, x: Side, now: nat)
    requires NextIsForeign(s, x) && Next(s, x, Deliver(now)).Some?
    ensures IsConsume(s, x, Next(s, x, Deliver(now)).value)
  {
    var r := s.log[s.Of(x).cursor];
    if r.author != x && IsMutation(r.ev) {
      ReceivedParts(s.Of(x).node, r.ev, now);
      var (node, outcome) := Received(s.Of(x).node, r.ev, now).value;
      ArrivedNode(s.Of(x), node, r.ev.path, outcome);
    }
  }

  lemma ArrivedNode(l: Local, node: Node, p: Path, outcome: Outcome)
    ensures Arrived(l, node, p, outcome).node == node && Arrived(l, node, p, outcome).cursor == l.cursor + 1
  {
  }

  lemma StepShape(s: State, x: Side, step: Step)
    requires Next(s, x, step).Some? && NextIsForeign(s, x)
    ensures var t := Next(s, x, step).value;
      || IsQuiet(s, x, t)
      || (t.log != [] && IsAppend(s, x, t, t.log[|t.log| - 1]))
      || (step.Deliver? && IsConsume(s, x, t))
    ensures step.Deliver? ==> IsConsume(s, x, Next(s, x, step).value)
  {
    if step.Deliver? {
      DeliverShape(s, x, step.now);
    }
  }

  /** Node `x` appends message `r`, and then stores `versions`. */
  lemma AppendCounts(s: State, x: Side, l: Local, r: Record)
    requires CountInv(s) && r.author == x && r.at == s.Of(x).cursor == l.cursor && r.ev.origin == s.Id(x) == l.node.id
    requires if r.ev.Write?
      then r.ev.version == Bumped(At(s.Of(x).node.versions, r.ev.path), s.Id(x))
        && l.node.versions == s.Of(x).node.versions[r.ev.path := r.ev.version]
      else l.node.versions == s.Of(x).node.versions
    ensures CountInv(s.With(x, l).(log := s.log + [r]))
  {
    var ids, y := IdsOf(s), x.Other();
    var t := s.With(x, l).(log := s.log + [r]);
    assert IdsOf(t) == ids;
    assert LocalCounts(ids, t.log, x, l.cursor, l.node.versions) && RecordCounts(ids, t.log, |s.log|) by {
      assert LocalCounts(ids, s.log, x, l.cursor, s.Of(x).node.versions);
      if r.ev.Write? {
        PublishCounts(ids, s.log, x, l.cursor, s.Of(x).node.versions, r);
      } else {
        LocalStable(ids, s.log, r, x, l.cursor, l.node.versions);
      }
    }
    assert LocalCounts(ids, t.log, y, s.Of(y).cursor, s.Of(y).node.versions) by {
      assert LocalCounts(ids, s.log, y, s.Of(y).cursor, s.Of(y).node.versions);
      LocalStable(ids, s.log, r, y, s.Of(y).cursor, s.Of(y).node.versions);
    }
    forall z: Side ensures LocalCounts(ids, t.log, z, t.Of(z).cursor, t.Of(z).node.versions) {
      assert z == x || z == y;
    }
    forall i: nat | i < |t.log| ensures RecordCounts(ids, t.log, i) {
      if i < |s.log| {
        RecordStable(ids, s.log, r, i);
      }
    }
  }

  lemma ConsumeCounts(s: State, x: Side, l: Local)
    requires CountInv(s) && l.node.id == s.Id(x) && s.Of(x).cursor < |s.log| && l.cursor == s.Of(x).cursor + 1
    requires var r := s.log[s.Of(x).cursor];
      l.node.versions == if r.author == x.Other() && r.ev.Write?
                         then StoreAfter(s.Of(x).node.versions, r.ev.path, r.ev.version) else s.Of(x).node.versions
    ensures CountInv(s.With(x, l))
  {
    var ids, t := IdsOf(s), s.With(x, l);
    assert IdsOf(t) == ids;
    assert LocalCounts(ids, s.log, x, l.cursor, l.node.versions) by {
      assert LocalCounts(ids, s.log, x, s.Of(x).cursor, s.Of(x).node.versions);
      DeliverCounts(ids, s.log, x, s.Of(x).cursor, s.Of(x).node.versions);
    }
    forall z: Side ensures LocalCounts(ids, s.log, z, t.Of(z).cursor, t.Of(z).node.versions) {
      assert z == x || (z == x.Other() && LocalCounts(ids, s.log, z, s.Of(z).cursor, s.Of(z).node.versions));
    }
  }

  lemma QuietCounts(s: State, x: Side, l: Local)
    requires CountInv(s) && l.node.id == s.Id(x) && l.cursor == s.Of(x).cursor
    requires l.node.versions == s.Of(x).node.versions
    ensures CountInv(s.With(x, l))
  {
    var t := s.With(x, l);
    assert IdsOf(t) == IdsOf(s);
    forall z: Side ensures LocalCounts(IdsOf(s), s.log, z, t.Of(z).cursor, t.Of(z).node.versions) {
      assert LocalCounts(IdsOf(s), s.log, z, s.Of(z).cursor, s.Of(z).node.versions);
    }
  }

  lemma StepCounts(s: State, x: Side, step: Step)
    requires CountInv(s) && Next(s, x, step).Some?
    ensures CountInv(Next(s, x, step).value) && IdsOf(Next(s, x, step).value) == IdsOf(s)
  {
    var t, c := Next(s, x, step).value, s.Of(x).cursor;
    if c < |s.log| {
      assert RecordCounts(IdsOf(s), s.log, c);
    }
    StepShape(s, x, step);
    if IsQuiet(s, x, t) {
      QuietCounts(s, x, t.Of(x));
    } else if step.Deliver? {
      ConsumeCounts(s, x, t.Of(x));
    } else {
      AppendCounts(s, x, t.Of(x), t.log[|s.log|]);
    }
  }

  lemma {:induction false} RunCounts(s: State, run: Run)
    requires CountInv(s) && RunFrom(s, run).Some?
    ensures CountInv(RunFrom(s, run).value) && IdsOf(RunFrom(s, run).value) == IdsOf(s)
  {
    if run != [] {
      var front := run[..|run| - 1];
      RunCounts(s, front);
      StepCounts(RunFrom(s, front).value, run[|run| - 1].0, run[|run| - 1].1);
    }
  }

  lemma StartCounts(ida: MachineId, idb: MachineId, fa: Files, fb: Files, enc: Option<Keys>)
    requires ida != idb
    ensures CountInv(Start(ida, idb, fa, fb, enc))
  {
  }
}
