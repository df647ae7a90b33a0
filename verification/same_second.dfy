/** The run that loses a published write: one path in conflict twice within one second. */
module SameSecond {
  import opened Outcomes
  import opened Paths
  import opened Version
  import opened Events
  import opened Bridge
  import opened Session
  import opened Delivery
  import opened NothingLost

  /** A file name and the contents written in the run. */
  datatype Clash = Clash(n: Name, c0: Content, c1: Content, c2: Content, c3: Content, c9: Content) {
    function P(): Path { [n] }

    /** Where A puts B's writes of the path at second 5. */
    function Q(): Path { [Aside(n, "b", 5)] }

    /** Both write the path; A sets B's write aside and reports the copy; B consumes everything; both
        write the path again, and B the copy too; A sets B's second write aside in the same second, and
        applies B's write of the copy over it. */
    function Run(): Run {
      WriteSteps(this, A, false, c0) + WriteSteps(this, B, false, c1)
      + [(A, Deliver(5))] + [(A, Deliver(5))] + [(A, Report(Modified(Q())))]
      + [(B, Deliver(9))] + [(B, Deliver(9))] + [(B, Deliver(9))]
      + WriteSteps(this, A, false, c3) + WriteSteps(this, B, false, c2) + WriteSteps(this, B, true, c9)
      + [(A, Deliver(5))] + [(A, Deliver(5))] + [(A, Deliver(5))] + [(A, Deliver(5))]
    }
  }

  function Lookup(files: Files, p: Path): Option<Content> {
    if p in files then Some(files[p]) else None
  }

  /** What the run needs to know of one node: its position, the path and the copy of it, on disk and in
      the version store, and where messages were set aside. */
  datatype View = View(cursor: nat, p: Option<Content>, q: Option<Content>, vp: Vector, vq: Vector,
                       aside: map<nat, Path>)

  predicate Flat(files: Files) {
    forall p :: p in files ==> |p| == 1
  }

  /** The guard expects nothing, or the first copy. */
  predicate GuardIs(k: Clash, g: Guard) {
    forall p :: p in g.entries ==> p == k.Q() && g.entries[p] == Written(ContentHash(k.c1))
  }

  predicate Sees(k: Clash, l: Local, id: MachineId, v: View) {
    && l.node.id == id && l.node.enc.None? && l.cursor == v.cursor && l.aside == v.aside
    && Flat(l.node.files) && GuardIs(k, l.node.guard)
    && Lookup(l.node.files, k.P()) == v.p && Lookup(l.node.files, k.Q()) == v.q
    && At(l.node.versions, k.P()) == v.vp && At(l.node.versions, k.Q()) == v.vq
  }

  predicate Both(k: Clash, s: State, log: seq<Record>, a: View, b: View) {
    s.log == log && Sees(k, s.a, "a", a) && Sees(k, s.b, "b", b)
  }

  ghost predicate NeverEdits(l: Local, q: Path) {
    forall c: nat :: (q, c) !in l.edits
  }

  /** Neither a user's write nor an applied one. */
  predicate Lasting(l: Local, m: Local) {
    m.edits == l.edits && m.node.guard == l.node.guard
  }

  function WriteBy(x: Side, p: Path, c: Content, v: Vector, at: nat): Record {
    Record(x, Write(if x.A? then "a" else "b", p, ContentHash(c), Clear(c), v, 0), at)
  }

  function IdOf(x: Side): MachineId {
    if x.A? then "a" else "b"
  }

  /** The view once the node has written the path, or the copy. */
  function AfterWrite(k: Clash, v: View, x: Side, copy: bool, c: Content): View {
    if copy then v.(q := Some(c), vq := Bumped(v.vq, IdOf(x))) else v.(p := Some(c), vp := Bumped(v.vp, IdOf(x)))
  }

  function PathOf(k: Clash, copy: bool): Path {
    if copy then k.Q() else k.P()
  }

  // ---- Single steps ----

  /** A run with the states it goes through. */
  datatype Trace = Trace(states: seq<State>, run: Run) {
    function End(): State
      requires states != []
    {
      states[|states| - 1]
    }
  }

  predicate StepsAt(tr: Trace, i: nat)
    requires i < |tr.run| && |tr.states| == |tr.run| + 1
  {
    Next(tr.states[i], tr.run[i].0, tr.run[i].1) == Some(tr.states[i + 1])
  }

  predicate Traced(tr: Trace) {
    |tr.states| == |tr.run| + 1 && forall i :: 0 <= i < |tr.run| ==> StepsAt(tr, i)
  }

  function Extended(tr: Trace, x: Side, step: Step, t: State): Trace {
    Trace(tr.states + [t], tr.run + [(x, step)])
  }

  lemma Extends(tr: Trace, x: Side, step: Step, t: State)
    requires Traced(tr) && Next(tr.End(), x, step) == Some(t)
    ensures Traced(Extended(tr, x, step, t))
  {
    var u := Extended(tr, x, step, t);
    forall i | 0 <= i < |u.run| ensures StepsAt(u, i) {
      assert i < |tr.run| ==> StepsAt(tr, i);
    }
  }

  lemma {:induction false} TraceIsRun(tr: Trace)
    requires Traced(tr)
    ensures RunFrom(tr.states[0], tr.run) == Some(tr.End())
    decreases |tr.run|
  {
    if tr.run != [] {
      var n := |tr.run| - 1;
      var front := Trace(tr.states[..n + 1], tr.run[..n]);
      forall i | 0 <= i < n ensures StepsAt(front, i) {
        assert StepsAt(tr, i);
      }
      TraceIsRun(front);
      assert StepsAt(tr, n);
    }
  }

  /** A file written at a path of one component, into a tree of such paths. */
  lemma FreeInFlat(files: Files, q: Path)
    requires Flat(files) && |q| == 1
    ensures !UnderFile(files, q) && !IsDirectory(files, q)
  {
  }

  lemma Different(k: Clash)
    ensures k.P() != k.Q()
  {
    assert NameDepth(k.Q()[0]) == 1 + NameDepth(k.n);
    assert k.P()[0] == k.n;
  }

  /** A report of the path or the copy that is no echo. */
  lemma ReportsTo(k: Clash, s: State, x: Side, v: View, copy: bool, c: Content) returns (t: State)
    requires Sees(k, s.Of(x), IdOf(x), v) && (if copy then v.q else v.p) == Some(c)
    requires copy ==> k.Q() !in s.Of(x).node.guard.entries || c != k.c1
    ensures Next(s, x, Report(Modified(PathOf(k, copy)))) == Some(t) && t.Of(x.Other()) == s.Of(x.Other())
    ensures Sees(k, t.Of(x), IdOf(x), AfterWrite(k, v, x, copy, c))
    ensures t.log == s.log + [WriteBy(x, PathOf(k, copy), c, Bumped(if copy then v.vq else v.vp, IdOf(x)), v.cursor)]
    ensures Lasting(s.Of(x), t.Of(x)) && PathOf(k, copy) !in t.Of(x).edited
    ensures t.Of(x).node.files == s.Of(x).node.files
  {
    Different(k);
    t := Next(s, x, Report(Modified(PathOf(k, copy)))).value;
  }

  lemma Reports(k: Clash, tr: Trace, x: Side, v: View, copy: bool, c: Content) returns (u: Trace)
    requires Traced(tr) && Sees(k, tr.End().Of(x), IdOf(x), v) && (if copy then v.q else v.p) == Some(c)
    requires copy ==> k.Q() !in tr.End().Of(x).node.guard.entries || c != k.c1
    ensures Traced(u) && u.run == tr.run + [(x, Report(Modified(PathOf(k, copy))))] && u.states[0] == tr.states[0]
    ensures var s, t := tr.End(), u.End();
      && t.Of(x.Other()) == s.Of(x.Other())
      && Sees(k, t.Of(x), IdOf(x), AfterWrite(k, v, x, copy, c))
      && t.log == s.log + [WriteBy(x, PathOf(k, copy), c, Bumped(if copy then v.vq else v.vp, IdOf(x)), v.cursor)]
      && Lasting(s.Of(x), t.Of(x)) && PathOf(k, copy) !in t.Of(x).edited
      && t.Of(x).node.files == s.Of(x).node.files
  {
    var t := ReportsTo(k, tr.End(), x, v, copy, c);
    Extends(tr, x, Report(Modified(PathOf(k, copy))), t);
    u := Extended(tr, x, Report(Modified(PathOf(k, copy))), t);
  }

  function WriteSteps(k: Clash, x: Side, copy: bool, c: Content): Run {
    [(x, UserWrite(PathOf(k, copy), c)), (x, Report(Modified(PathOf(k, copy))))]
  }

  lemma IsEdited(k: Clash, s: State, x: Side, v: View, copy: bool, c: Content) returns (t: State)
    requires Sees(k, s.Of(x), IdOf(x), v)
    ensures Next(s, x, UserWrite(PathOf(k, copy), c)) == Some(t) && t.log == s.log && t.Of(x.Other()) == s.Of(x.Other())
    ensures Sees(k, t.Of(x), IdOf(x), if copy then v.(q := Some(c)) else v.(p := Some(c)))
    ensures t.Of(x).node.guard == s.Of(x).node.guard
    ensures !copy && NeverEdits(s.Of(x), k.Q()) ==> NeverEdits(t.Of(x), k.Q())
    ensures t.Of(x).node.files == s.Of(x).node.files[PathOf(k, copy) := c]
  {
    Different(k);
    t := Next(s, x, UserWrite(PathOf(k, copy), c)).value;
  }

  /** A user's edit, published at once. */
  lemma Writes(k: Clash, tr: Trace, x: Side, v: View, copy: bool, c: Content) returns (u: Trace)
    requires Traced(tr) && Sees(k, tr.End().Of(x), IdOf(x), v)
    requires copy ==> k.Q() !in tr.End().Of(x).node.guard.entries || c != k.c1
    ensures Traced(u) && u.run == tr.run + WriteSteps(k, x, copy, c) && u.states[0] == tr.states[0]
    ensures var s, t := tr.End(), u.End();
      && t.Of(x.Other()) == s.Of(x.Other()) && Sees(k, t.Of(x), IdOf(x), AfterWrite(k, v, x, copy, c))
      && t.log == s.log + [WriteBy(x, PathOf(k, copy), c, Bumped(if copy then v.vq else v.vp, IdOf(x)), v.cursor)]
      && t.Of(x).node.guard == s.Of(x).node.guard && PathOf(k, copy) !in t.Of(x).edited
      && t.Of(x).node.files == s.Of(x).node.files[PathOf(k, copy) := c]
      && (!copy && NeverEdits(s.Of(x), k.Q()) ==> NeverEdits(t.Of(x), k.Q()))
  {
    var p := PathOf(k, copy);
    var t := IsEdited(k, tr.End(), x, v, copy, c);
    Extends(tr, x, UserWrite(p, c), t);
    var edited := if copy then v.(q := Some(c)) else v.(p := Some(c));
    u := Reports(k, Extended(tr, x, UserWrite(p, c), t), x, edited, copy, c);
  }

  /** A message of its own. */
  lemma Skips(k: Clash, tr: Trace, x: Side, v: View, now: nat) returns (u: Trace)
    requires Traced(tr) && Sees(k, tr.End().Of(x), IdOf(x), v)
    requires v.cursor < |tr.End().log| && tr.End().log[v.cursor].author == x
    ensures Traced(u) && u.run == tr.run + [(x, Deliver(now))] && u.states[0] == tr.states[0]
    ensures u.End() == tr.End().With(x, tr.End().Of(x).(cursor := v.cursor + 1))
    ensures Sees(k, u.End().Of(x), IdOf(x), v.(cursor := v.cursor + 1))
  {
    var t := tr.End().With(x, tr.End().Of(x).(cursor := v.cursor + 1));
    Extends(tr, x, Deliver(now), t);
    u := Extended(tr, x, Deliver(now), t);
  }

  /** The peer's next message is the plain write of `c` to the path or the copy. */
  predicate Comes(k: Clash, s: State, x: Side, v: View, copy: bool, c: Content, version: Vector) {
    && v.cursor < |s.log|
    && s.log[v.cursor].(at := 0) == WriteBy(x.Other(), PathOf(k, copy), c, version, 0)
  }

  /** The delivery of a plain write on a node without chains, from the decision of the vectors. */
  lemma ReceivedAside(n: Node, ev: Event, now: nat)
    requires ev.Write? && ev.data.Clear? && ev.origin != n.id && n.enc.None? && Flat(n.files) && |ev.path| == 1
    requires Causal(ev.version, At(n.versions, ev.path)) == Concurrent
    ensures var put := ConflictPath(ev.path, ev.origin, now);
      Received(n, ev, now) ==
      Ok((n.(files := n.files[put := ev.data.data],
             versions := n.versions[ev.path := Merged(At(n.versions, ev.path), ev.version)]), SetAside(put)))
  {
    FreeInFlat(n.files, ConflictPath(ev.path, ev.origin, now));
  }

  lemma ReceivedInPlace(n: Node, ev: Event, now: nat)
    requires ev.Write? && ev.data.Clear? && ev.origin != n.id && n.enc.None? && Flat(n.files) && |ev.path| == 1
    requires Causal(ev.version, At(n.versions, ev.path)) == AAfterB
    ensures Received(n, ev, now) ==
      Ok((n.(files := n.files[ev.path := ev.data.data], versions := n.versions[ev.path := ev.version],
             guard := Marked(n.guard, ev)), AppliedIt))
  {
    FreeInFlat(n.files, ev.path);
  }

  /** The node that has set the write of the path aside. */
  function AsidePut(k: Clash, l: Local, c: Content, version: Vector, put: Path): Local {
    Arrived(l, l.node.(files := l.node.files[put := c],
                       versions := l.node.versions[k.P() := Merged(At(l.node.versions, k.P()), version)]),
            k.P(), SetAside(put))
  }

  /** The node that has applied a write of the copy. */
  function CopyApplied(k: Clash, l: Local, c: Content, version: Vector): Local {
    Arrived(l, l.node.(files := l.node.files[k.Q() := c], versions := l.node.versions[k.Q() := version],
                       guard := l.node.guard.(entries := l.node.guard.entries[k.Q() := Written(ContentHash(c))])),
            k.Q(), AppliedIt)
  }

  lemma AsideIsSeen(k: Clash, l: Local, id: MachineId, v: View, c: Content, version: Vector, put: Path)
    requires Sees(k, l, id, v) && put != k.P() && |put| == 1
    ensures Sees(k, AsidePut(k, l, c, version, put), id,
                 v.(cursor := v.cursor + 1, vp := Merged(v.vp, version),
                    q := if put == k.Q() then Some(c) else v.q, aside := v.aside[v.cursor := put]))
  {
    Different(k);
  }

  lemma CopyIsSeen(k: Clash, l: Local, id: MachineId, v: View, c: Content, version: Vector)
    requires Sees(k, l, id, v) && c == k.c1
    ensures Sees(k, CopyApplied(k, l, c, version), id, v.(cursor := v.cursor + 1, q := Some(c), vq := version))
  {
    Different(k);
  }

  lemma Delivered(s: State, x: Side, now: nat, node: Node, outcome: Outcome)
    requires NextIsPeerWrite(s, x) && Received(s.Of(x).node, s.log[s.Of(x).cursor].ev, now) == Ok((node, outcome))
    ensures Next(s, x, Deliver(now)) ==
      Some(s.With(x, Arrived(s.Of(x), node, s.log[s.Of(x).cursor].ev.path, outcome)))
  {
  }

  lemma IsSetAside(k: Clash, s: State, x: Side, v: View, c: Content, version: Vector, now: nat)
    requires Sees(k, s.Of(x), IdOf(x), v) && Comes(k, s, x, v, false, c, version)
    requires Causal(version, v.vp) == Concurrent
    ensures Next(s, x, Deliver(now))
            == Some(s.With(x, AsidePut(k, s.Of(x), c, version, ConflictPath(k.P(), IdOf(x.Other()), now))))
  {
    var n, ev := s.Of(x).node, s.log[v.cursor].ev;
    var put := ConflictPath(ev.path, ev.origin, now);
    ReceivedAside(n, ev, now);
    var node := n.(files := n.files[put := c],
                   versions := n.versions[ev.path := Merged(At(n.versions, ev.path), version)]);
    Delivered(s, x, now, node, SetAside(put));
  }

  lemma Conflicts(k: Clash, tr: Trace, x: Side, v: View, c: Content, version: Vector, now: nat) returns (u: Trace)
    requires Traced(tr) && Sees(k, tr.End().Of(x), IdOf(x), v) && Comes(k, tr.End(), x, v, false, c, version)
    requires Causal(version, v.vp) == Concurrent
    ensures Traced(u) && u.run == tr.run + [(x, Deliver(now))] && u.states[0] == tr.states[0]
    ensures u.End().log == tr.End().log && u.End().Of(x.Other()) == tr.End().Of(x.Other())
    ensures Lasting(tr.End().Of(x), u.End().Of(x)) && u.End().Of(x).edited == tr.End().Of(x).edited
    ensures u.End().Of(x).node.files
      == tr.End().Of(x).node.files[ConflictPath(k.P(), IdOf(x.Other()), now) := c]
    ensures var put := ConflictPath(k.P(), IdOf(x.Other()), now);
      Sees(k, u.End().Of(x), IdOf(x), v.(cursor := v.cursor + 1, vp := Merged(v.vp, version),
                                         q := if put == k.Q() then Some(c) else v.q, aside := v.aside[v.cursor := put]))
  {
    var s, put := tr.End(), ConflictPath(k.P(), IdOf(x.Other()), now);
    assert NameDepth(put[0]) == 1 + NameDepth(k.n);
    IsSetAside(k, s, x, v, c, version, now);
    AsideIsSeen(k, s.Of(x), IdOf(x), v, c, version, put);
    var t := s.With(x, AsidePut(k, s.Of(x), c, version, put));
    Extends(tr, x, Deliver(now), t);
    u := Extended(tr, x, Deliver(now), t);
  }

  lemma IsApplied(k: Clash, s: State, x: Side, v: View, c: Content, version: Vector, now: nat)
    requires Sees(k, s.Of(x), IdOf(x), v) && Comes(k, s, x, v, true, c, version) && Causal(version, v.vq) == AAfterB
    ensures Next(s, x, Deliver(now)) == Some(s.With(x, CopyApplied(k, s.Of(x), c, version)))
  {
    var n, ev := s.Of(x).node, s.log[v.cursor].ev;
    ReceivedInPlace(n, ev, now);
    var node := n.(files := n.files[ev.path := c], versions := n.versions[ev.path := version],
                   guard := Marked(n.guard, ev));
    Delivered(s, x, now, node, AppliedIt);
  }

  lemma Applies(k: Clash, tr: Trace, x: Side, v: View, c: Content, version: Vector, now: nat) returns (u: Trace)
    requires Traced(tr) && Sees(k, tr.End().Of(x), IdOf(x), v) && Comes(k, tr.End(), x, v, true, c, version)
    requires Causal(version, v.vq) == AAfterB
    ensures Traced(u) && u.run == tr.run + [(x, Deliver(now))] && u.states[0] == tr.states[0]
    ensures u.End() == tr.End().With(x, CopyApplied(k, tr.End().Of(x), c, version))
    ensures c == k.c1 ==> Sees(k, u.End().Of(x), IdOf(x), v.(cursor := v.cursor + 1, q := Some(c), vq := version))
  {
    var s := tr.End();
    IsApplied(k, s, x, v, c, version, now);
    if c == k.c1 {
      CopyIsSeen(k, s.Of(x), IdOf(x), v, c, version);
    }
    var t := s.With(x, CopyApplied(k, s.Of(x), c, version));
    Extends(tr, x, Deliver(now), t);
    u := Extended(tr, x, Deliver(now), t);
  }

  // ---- The vectors of the run ----

  lemma Compared(a: Vector, b: Vector, m: MachineId, n: MachineId)
    ensures Count(a, m) > Count(b, m) && Count(b, n) > Count(a, n) ==> Causal(a, b) == Concurrent
    ensures Count(a, m) > Count(b, m) && (forall k :: Count(b, k) <= Count(a, k)) ==> Causal(a, b) == AAfterB
  {
    LeqCounts(a, b);
    LeqCounts(b, a);
  }

  /** The vectors of the run: two first writes, and two second ones made after merging them. */
  lemma Vectors(va: Vector, vb: Vector)
    requires va == Bumped(map[], "a") && vb == Bumped(map[], "b")
    ensures Causal(vb, va) == Concurrent && Causal(va, vb) == Concurrent && Causal(va, map[]) == AAfterB
    ensures Causal(Bumped(va, "b"), va) == AAfterB
    ensures Causal(Bumped(Merged(vb, va), "b"), Bumped(Merged(va, vb), "a")) == Concurrent
  {
    assert "a"[0] != "b"[0];
    Compared(vb, va, "b", "a");
    Compared(va, vb, "a", "b");
    Compared(va, map[], "a", "a");
    Compared(Bumped(va, "b"), va, "b", "b");
    Compared(Bumped(Merged(vb, va), "b"), Bumped(Merged(va, vb), "a"), "b", "a");
  }

  // ---- The run, part by part; `va` and `vb` are the vectors of the two first writes ----

  const NOTHING := View(0, None, None, map[], map[], map[])

  /** Both write the path. */
  lemma BothWrite(k: Clash, c: Content, va: Vector, vb: Vector) returns (u: Trace)
    requires va == Bumped(map[], "a") && vb == Bumped(map[], "b")
    ensures Traced(u) && u.states[0] == Start("a", "b", map[], map[], None)
    ensures u.run == WriteSteps(k, A, false, k.c0) + WriteSteps(k, B, false, c)
    ensures u.End().log == [WriteBy(A, k.P(), k.c0, va, 0), WriteBy(B, k.P(), c, vb, 0)]
    ensures Sees(k, u.End().a, "a", View(0, Some(k.c0), None, va, map[], map[])) && u.End().a.node.guard == EMPTY_GUARD
    ensures Sees(k, u.End().b, "b", View(0, Some(c), None, vb, map[], map[]))
    ensures NeverEdits(u.End().a, k.Q()) && NeverEdits(u.End().b, k.Q())
    ensures u.End().a.node.files == map[][k.P() := k.c0] && u.End().b.node.files == map[][k.P() := c]
  {
    var start := Trace([Start("a", "b", map[], map[], None)], []);
    var t := Writes(k, start, A, NOTHING, false, k.c0);
    u := Writes(k, t, B, NOTHING, false, c);
  }

  /** A passes its own message, and sets B's write aside. */
  lemma SetsAside(k: Clash, tr: Trace, a: View, c: Content, v: Vector) returns (u: Trace)
    requires Traced(tr) && Sees(k, tr.End().a, "a", a) && a.cursor < |tr.End().log|
    requires tr.End().log[a.cursor].author == A && Comes(k, tr.End(), A, a.(cursor := a.cursor + 1), false, c, v)
    requires Causal(v, a.vp) == Concurrent
    ensures Traced(u) && u.states[0] == tr.states[0] && u.End().log == tr.End().log && u.End().b == tr.End().b
    ensures u.run == tr.run + [(A, Deliver(5))] + [(A, Deliver(5))]
    ensures Sees(k, u.End().a, "a", a.(cursor := a.cursor + 2, q := Some(c), vp := Merged(a.vp, v),
                                       aside := a.aside[a.cursor + 1 := k.Q()]))
    ensures Lasting(tr.End().a, u.End().a) && u.End().a.edited == tr.End().a.edited
    ensures u.End().a.node.files == tr.End().a.node.files[k.Q() := c]
  {
    var t := Skips(k, tr, A, a, 5);
    assert ConflictPath(k.P(), "b", 5) == k.Q();
    u := Conflicts(k, t, A, a.(cursor := a.cursor + 1), c, v, 5);
  }

  /** A sets B's write aside and reports the copy. */
  lemma SecondPart(k: Clash, tr: Trace, va: Vector, vb: Vector) returns (u: Trace)
    requires Traced(tr) && Causal(vb, va) == Concurrent && NeverEdits(tr.End().a, k.Q())
    requires Sees(k, tr.End().a, "a", View(0, Some(k.c0), None, va, map[], map[]))
    requires tr.End().a.node.guard == EMPTY_GUARD
    requires tr.End().log == [WriteBy(A, k.P(), k.c0, va, 0), WriteBy(B, k.P(), k.c1, vb, 0)]
    ensures Traced(u) && u.run == tr.run + [(A, Deliver(5))] + [(A, Deliver(5))] + [(A, Report(Modified(k.Q())))]
    ensures u.states[0] == tr.states[0] && NeverEdits(u.End().a, k.Q()) && u.End().b == tr.End().b
    ensures Sees(k, u.End().a, "a",
                 View(2, Some(k.c0), Some(k.c1), Merged(va, vb), Bumped(map[], "a"), map[1 := k.Q()]))
    ensures u.End().log == tr.End().log + [WriteBy(A, k.Q(), k.c1, Bumped(map[], "a"), 2)]
  {
    var t := SetsAside(k, tr, View(0, Some(k.c0), None, va, map[], map[]), k.c1, vb);
    u := Reports(k, t, A, View(2, Some(k.c0), Some(k.c1), Merged(va, vb), map[], map[1 := k.Q()]), true, k.c1);
  }

  /** Where B puts A's first write. */
  function W(k: Clash): Path {
    ConflictPath(k.P(), "a", 9)
  }

  lemma OtherName(k: Clash)
    ensures W(k) != k.Q()
  {
    assert "a"[0] != "b"[0];
    assert Last(W(k)).origin == "a" && Last(k.Q()).origin == "b";
  }

  /** B sets A's write aside, and applies A's copy. */
  lemma ThirdPart(k: Clash, tr: Trace, va: Vector, vb: Vector, vq: Vector) returns (u: Trace)
    requires Traced(tr) && Causal(va, vb) == Concurrent && Causal(vq, map[]) == AAfterB
    requires Sees(k, tr.End().b, "b", View(0, Some(k.c1), None, vb, map[], map[]))
    requires tr.End().log
      == [WriteBy(A, k.P(), k.c0, va, 0), WriteBy(B, k.P(), k.c1, vb, 0), WriteBy(A, k.Q(), k.c1, vq, 2)]
    ensures Traced(u) && u.run == tr.run + [(B, Deliver(9))] + [(B, Deliver(9))] + [(B, Deliver(9))]
    ensures u.states[0] == tr.states[0] && u.End().a == tr.End().a && u.End().log == tr.End().log
    ensures Sees(k, u.End().b, "b", View(3, Some(k.c1), Some(k.c1), Merged(vb, va), vq, map[0 := W(k)]))
  {
    OtherName(k);
    var t1 := Conflicts(k, tr, B, View(0, Some(k.c1), None, vb, map[], map[]), k.c0, va, 9);
    var t2 := Skips(k, t1, B, View(1, Some(k.c1), None, Merged(vb, va), map[], map[0 := W(k)]), 9);
    u := Applies(k, t2, B, View(2, Some(k.c1), None, Merged(vb, va), map[], map[0 := W(k)]), k.c1, vq, 9);
  }

  /** Both write the path again, and B the copy too. */
  lemma FourthPart(k: Clash, tr: Trace, a: View, b: View) returns (u: Trace)
    requires Traced(tr) && Sees(k, tr.End().a, "a", a) && Sees(k, tr.End().b, "b", b) && k.c9 != k.c1
    requires NeverEdits(tr.End().a, k.Q())
    ensures Traced(u) && u.states[0] == tr.states[0] && NeverEdits(u.End().a, k.Q())
    ensures u.run
      == tr.run + WriteSteps(k, A, false, k.c3) + WriteSteps(k, B, false, k.c2) + WriteSteps(k, B, true, k.c9)
    ensures Sees(k, u.End().a, "a", a.(p := Some(k.c3), vp := Bumped(a.vp, "a")))
    ensures u.End().log == tr.End().log
      + [WriteBy(A, k.P(), k.c3, Bumped(a.vp, "a"), a.cursor)] + [WriteBy(B, k.P(), k.c2, Bumped(b.vp, "b"), b.cursor)]
      + [WriteBy(B, k.Q(), k.c9, Bumped(b.vq, "b"), b.cursor)]
  {
    var t1 := Writes(k, tr, A, a, false, k.c3);
    var t2 := Writes(k, t1, B, b, false, k.c2);
    u := Writes(k, t2, B, b.(p := Some(k.c2), vp := Bumped(b.vp, "b")), true, k.c9);
  }

  /** A sets B's second write aside in the same second, and applies B's write of the copy over it. */
  lemma FifthPart(k: Clash, tr: Trace, a: View, log: seq<Record>, own: Record, v4: Vector, v5: Vector)
    returns (u: Trace)
    requires Traced(tr) && Sees(k, tr.End().a, "a", a) && a.cursor == 2 && NeverEdits(tr.End().a, k.Q())
    requires tr.End().log == log + [own] + [WriteBy(B, k.P(), k.c2, v4, 3)] + [WriteBy(B, k.Q(), k.c9, v5, 3)]
    requires |log| == 3 && log[2].author == A && own.author == A
    requires Causal(v4, a.vp) == Concurrent && Causal(v5, a.vq) == AAfterB
    ensures Traced(u) && u.states[0] == tr.states[0] && u.End().log == tr.End().log && NeverEdits(u.End().a, k.Q())
    ensures u.run == tr.run + [(A, Deliver(5))] + [(A, Deliver(5))] + [(A, Deliver(5))] + [(A, Deliver(5))]
    ensures var l := u.End().a; l.cursor == 6 && l.aside == a.aside[4 := k.Q()] && FileIs(l.node.files, k.Q(), k.c9)
  {
    var t1 := Skips(k, tr, A, a, 5);
    var t2 := SetsAside(k, t1, a.(cursor := 3), k.c2, v4);
    var a5 := a.(cursor := 5, vp := Merged(a.vp, v4), q := Some(k.c2), aside := a.aside[4 := k.Q()]);
    u := Applies(k, t2, A, a5, k.c9, v5, 5);
  }

  /** The stream of the run. */
  predicate EndsWith(k: Clash, s: State, va: Vector, vb: Vector) {
    && s.a.cursor == 6
    && s.log == [WriteBy(A, k.P(), k.c0, va, 0), WriteBy(B, k.P(), k.c1, vb, 0), WriteBy(A, k.Q(), k.c1, va, 2)]
                + [WriteBy(A, k.P(), k.c3, Bumped(Merged(va, vb), "a"), 2)]
                + [WriteBy(B, k.P(), k.c2, Bumped(Merged(vb, va), "b"), 3)]
                + [WriteBy(B, k.Q(), k.c9, Bumped(va, "b"), 3)]
    && 4 in s.a.aside && s.a.aside[4] == k.Q() && FileIs(s.a.node.files, k.Q(), k.c9)
  }

  lemma FirstTwoParts(k: Clash, va: Vector, vb: Vector) returns (t: Trace)
    requires va == Bumped(map[], "a") && vb == Bumped(map[], "b") && Causal(vb, va) == Concurrent
    ensures Traced(t) && t.states[0] == Start("a", "b", map[], map[], None) && NeverEdits(t.End().a, k.Q())
    ensures t.run == WriteSteps(k, A, false, k.c0) + WriteSteps(k, B, false, k.c1)
      + [(A, Deliver(5))] + [(A, Deliver(5))] + [(A, Report(Modified(k.Q())))]
    ensures Sees(k, t.End().a, "a", View(2, Some(k.c0), Some(k.c1), Merged(va, vb), va, map[1 := k.Q()]))
    ensures Sees(k, t.End().b, "b", View(0, Some(k.c1), None, vb, map[], map[]))
    ensures t.End().log
      == [WriteBy(A, k.P(), k.c0, va, 0), WriteBy(B, k.P(), k.c1, vb, 0), WriteBy(A, k.Q(), k.c1, va, 2)]
  {
    var t1 := BothWrite(k, k.c1, va, vb);
    t := SecondPart(k, t1, va, vb);
  }

  lemma FirstHalf(k: Clash, va: Vector, vb: Vector) returns (t: Trace)
    requires va == Bumped(map[], "a") && vb == Bumped(map[], "b")
    ensures Traced(t) && t.states[0] == Start("a", "b", map[], map[], None) && NeverEdits(t.End().a, k.Q())
    ensures t.run == WriteSteps(k, A, false, k.c0) + WriteSteps(k, B, false, k.c1)
      + [(A, Deliver(5))] + [(A, Deliver(5))] + [(A, Report(Modified(k.Q())))]
      + [(B, Deliver(9))] + [(B, Deliver(9))] + [(B, Deliver(9))]
    ensures Sees(k, t.End().a, "a", View(2, Some(k.c0), Some(k.c1), Merged(va, vb), va, map[1 := k.Q()]))
    ensures Sees(k, t.End().b, "b", View(3, Some(k.c1), Some(k.c1), Merged(vb, va), va, map[0 := W(k)]))
    ensures t.End().log
      == [WriteBy(A, k.P(), k.c0, va, 0), WriteBy(B, k.P(), k.c1, vb, 0), WriteBy(A, k.Q(), k.c1, va, 2)]
  {
    Vectors(va, vb);
    var t1 := FirstTwoParts(k, va, vb);
    t := ThirdPart(k, t1, va, vb, va);
  }

  lemma SecondHalf(k: Clash, tr: Trace, a: View, b: View, v3: Vector, v4: Vector, v5: Vector) returns (t: Trace)
    requires Traced(tr) && NeverEdits(tr.End().a, k.Q()) && k.c9 != k.c1
    requires Sees(k, tr.End().a, "a", a) && Sees(k, tr.End().b, "b", b) && a.cursor == 2 && b.cursor == 3
    requires |tr.End().log| == 3 && tr.End().log[2].author == A
    requires v3 == Bumped(a.vp, "a") && v4 == Bumped(b.vp, "b") && v5 == Bumped(b.vq, "b")
    requires Causal(v4, v3) == Concurrent && Causal(v5, a.vq) == AAfterB
    ensures Traced(t) && t.states[0] == tr.states[0] && NeverEdits(t.End().a, k.Q())
    ensures t.run
      == tr.run + WriteSteps(k, A, false, k.c3) + WriteSteps(k, B, false, k.c2) + WriteSteps(k, B, true, k.c9)
      + [(A, Deliver(5))] + [(A, Deliver(5))] + [(A, Deliver(5))] + [(A, Deliver(5))]
    ensures t.End().log == tr.End().log
      + [WriteBy(A, k.P(), k.c3, v3, 2)] + [WriteBy(B, k.P(), k.c2, v4, 3)] + [WriteBy(B, k.Q(), k.c9, v5, 3)]
    ensures var l := t.End().a; l.cursor == 6 && l.aside == a.aside[4 := k.Q()] && FileIs(l.node.files, k.Q(), k.c9)
  {
    var t1 := FourthPart(k, tr, a, b);
    t := FifthPart(k, t1, a.(p := Some(k.c3), vp := v3), tr.End().log, WriteBy(A, k.P(), k.c3, v3, 2), v4, v5);
  }

  lemma WholeRun(k: Clash, va: Vector, vb: Vector) returns (t: Trace)
    requires k.c9 != k.c1 && va == Bumped(map[], "a") && vb == Bumped(map[], "b")
    ensures Traced(t) && t.run == k.Run() && t.states[0] == Start("a", "b", map[], map[], None)
    ensures EndsWith(k, t.End(), va, vb) && NeverEdits(t.End().a, k.Q())
  {
    Vectors(va, vb);
    var t1 := FirstHalf(k, va, vb);
    var a := View(2, Some(k.c0), Some(k.c1), Merged(va, vb), va, map[1 := k.Q()]);
    var b := View(3, Some(k.c1), Some(k.c1), Merged(vb, va), va, map[0 := W(k)]);
    t := SecondHalf(k, t1, a, b, Bumped(Merged(va, vb), "a"), Bumped(Merged(vb, va), "b"), Bumped(va, "b"));
  }

  lemma NowhereOnA(k: Clash, s: State, va: Vector, vb: Vector)
    requires EndsWith(k, s, va, vb) && NeverEdits(s.a, k.Q()) && k.c9 != k.c2
    ensures |s.log| == 6 && s.log[4].ev == WriteBy(B, k.P(), k.c2, Bumped(Merged(vb, va), "b"), 3).ev
    ensures !Accounted(s, A, 4)
  {
    Different(k);
    assert forall j: nat :: !Supersedes(s.log, 4, j);
    assert forall j: nat :: !Republishes(s.log, A, 4, k.Q(), j);
  }

  /** In the end, B's last write of the path is nowhere on A, although A has consumed everything and
      its user has not touched the copy. */
  lemma SameSecondLosesContent(k: Clash)
    requires k.c9 != k.c1 && k.c9 != k.c2
    ensures var s := RunFrom(Start("a", "b", map[], map[], None), k.Run());
      && s.Some? && |s.value.log| == 6 && s.value.a.cursor == 6 && NeverEdits(s.value.a, k.Q())
      && IsWriteAt(s.value.log, 4) && PlainOf(s.value.log[4].ev) == k.c2 && !Accounted(s.value, A, 4)
  {
    var va, vb := Bumped(map[], "a"), Bumped(map[], "b");
    var t := WholeRun(k, va, vb);
    TraceIsRun(t);
    NowhereOnA(k, t.End(), va, vb);
  }
}