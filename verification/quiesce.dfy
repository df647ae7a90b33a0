/** No echo loop: when every change on disk, local or applied, is reported once before the next change to
    its path, each message comes from one local change or one conflict file, and the exchange ends. */
module Quiesce {
  import opened Outcomes
  import opened Paths
  import opened Version
  import opened Events
  import opened Bridge
  import opened Session
  import opened Delivery

  /** A report the watcher still owes: of a change this node applied, of the conflict file it wrote for
      message `index`, or of local change number `k`. */
  datatype Due = Echo(change: Change) | Copy(path: Path, index: nat) | Own(change: Change, k: nat)

  /** Where a message comes from: the k-th local change, or the conflict file for message `index`. */
  datatype Source = Genuine(k: nat) | CopyOf(index: nat)

  /** A session with its due reports, the source of each message, the local changes made so far,
      and how many are still to come. */
  datatype QState = QState(s: State, dueA: seq<Due>, dueB: seq<Due>, sources: seq<Source>,
                           changes: seq<(Side, Change)>, left: nat) {
    function Due(x: Side): seq<Due> {
      if x.A? then dueA else dueB
    }

    function WithDue(x: Side, due: seq<Due>): QState {
      if x.A? then this.(dueA := due) else this.(dueB := due)
    }
  }

  datatype QStep =
    | LocalChange(change: Change, files: Files)  // a local change, to be reported
    | ReportDue(k: nat)                          // the watcher reports due number k
    | DeliverNext(now: nat)

  function Touches(c: Change): seq<Path> {
    match c
    case Modified(p) => [p]
    case RemovedAt(p) => [p]
    case RenamedTo(o, p) => [o, p]
    case Rescan => []
  }

  function DuePaths(d: Due): seq<Path> {
    match d
    case Echo(c) => Touches(c)
    case Copy(p, _) => [p]
    case Own(c, _) => Touches(c)
  }

  function ReportOf(d: Due): Change {
    match d
    case Echo(c) => c
    case Copy(p, _) => Modified(p)
    case Own(c, _) => c
  }

  /** What a report that is published is the source of. */
  function SourcesOf(d: Due): seq<Source> {
    match d
    case Echo(_) => []
    case Copy(_, i) => [CopyOf(i)]
    case Own(_, k) => [Genuine(k)]
  }

  /** The change an applied event makes, as the watcher reports it. */
  function ChangeOf(ev: Event): Change
    requires IsMutation(ev)
  {
    match ev
    case Write(_, p, _, _, _, _) => Modified(p)
    case Remove(_, p) => RemovedAt(p)
    case Rename(_, p, o) => RenamedTo(o, p)
  }

  predicate Apart(ps: seq<Path>, qs: seq<Path>) {
    forall p, q :: p in ps && q in qs ==> !Overlap(p, q)
  }

  /** No due report is about a path that lies on, above or below one of `ps`. */
  predicate Clear(due: seq<Due>, ps: seq<Path>) {
    forall e :: e in due ==> Apart(DuePaths(e), ps)
  }

  /** The trees agree on every path apart from `ps`. */
  ghost predicate SameBeside(f: Files, g: Files, ps: seq<Path>) {
    forall q: Path :: Apart([q], ps) ==> (q in f <==> q in g) && (q in f ==> f[q] == g[q])
  }

  function Removed<T>(s: seq<T>, k: nat): seq<T>
    requires k < |s|
  {
    s[..k] + s[k + 1..]
  }

  /** A local change the user may make now: apart from what is due, to a path of depth at most `d`. */
  ghost predicate MayChange(q: QState, x: Side, c: Change, files: Files, d: nat) {
    && q.left > 0 && !c.Rescan? && Clear(q.Due(x), Touches(c))
    && SameBeside(q.s.Of(x).node.files, files, Touches(c))
    && (c.Modified? ==> c.path in files && Depth(c.path) <= d)
  }

  /** The paths a delivery changes: none, the event's own, or the conflict file's. */
  function ChangedPaths(ev: Event, outcome: Outcome): seq<Path>
    requires IsMutation(ev)
  {
    match outcome
    case AppliedIt => Touches(ChangeOf(ev))
    case SetAside(p) => [p]
    case _ => []
  }

  function NewDue(ev: Event, outcome: Outcome, index: nat): seq<Due>
    requires IsMutation(ev)
  {
    match outcome
    case AppliedIt => [Echo(ChangeOf(ev))]
    case SetAside(p) => [Copy(p, index)]
    case _ => []
  }

  function WithFiles(s: State, x: Side, files: Files): State {
    s.With(x, s.Of(x).(node := s.Of(x).node.(files := files)))
  }

  ghost function QNext(q: QState, x: Side, step: QStep, d: nat): Option<QState> {
    match step
    case LocalChange(c, files) =>
      if !MayChange(q, x, c, files, d) then None
      else
        Some(q.WithDue(x, q.Due(x) + [Own(c, |q.changes|)]).(
               s := WithFiles(q.s, x, files), changes := q.changes + [(x, c)], left := q.left - 1))
    case ReportDue(k) =>
      if k >= |q.Due(x)| then None
      else
        var due := q.Due(x)[k];
        (match Next(q.s, x, Report(ReportOf(due)))
         case None => None
         case Some(s) => Some(q.WithDue(x, Removed(q.Due(x), k)).(s := s, sources := q.sources + SourcesOf(due))))
    case DeliverNext(now) =>
      var c := q.s.Of(x).cursor;
      if c >= |q.s.log| || !IsMutation(q.s.log[c].ev) then None
      else
        var r := q.s.log[c];
        (match Next(q.s, x, Deliver(now))
         case None => None
         case Some(s) =>
           if r.author == x then Some(q.(s := s))
           else
             match Received(q.s.Of(x).node, r.ev, now)
             case Err(_) => None
             case Ok((_, outcome)) =>
               if !Clear(q.Due(x), ChangedPaths(r.ev, outcome)) then None
               else Some(q.WithDue(x, q.Due(x) + NewDue(r.ev, outcome, c)).(s := s)))
  }

  // ---- What is due, and what the guard expects ----

  /** What a due report will find. */
  predicate DueHolds(log: seq<Record>, x: Side, n: Node, cursor: nat, due: Due) {
    match due
    case Echo(Modified(p)) =>
      p in n.files && p in n.guard.entries && n.guard.entries[p] == Written(ContentHash(n.files[p]))
    case Echo(RemovedAt(p)) => p in n.guard.entries && n.guard.entries[p] == Events.Removed
    case Echo(RenamedTo(o, p)) => p in n.guard.renamed && n.guard.renamed[p] == o
    case Echo(Rescan) => false
    case Copy(p, i) =>
      && i < cursor && i < |log| && log[i].author == x.Other() && log[i].ev.Write?
      && p in n.files && n.files[p] == PlainOf(log[i].ev)
      && Last(p).Aside? && p == ConflictPath(log[i].ev.path, log[i].ev.origin, Last(p).at)
    case Own(c, _) => !c.Rescan? && (c.Modified? ==> c.path in n.files)
  }

  predicate PairwiseApart(due: seq<Due>) {
    forall i, j :: 0 <= i < j < |due| ==> Apart(DuePaths(due[i]), DuePaths(due[j]))
  }

  ghost predicate DueInv(log: seq<Record>, x: Side, n: Node, cursor: nat, due: seq<Due>) {
    && (forall e :: e in due ==> DueHolds(log, x, n, cursor, e))
    && PairwiseApart(due)
    && (forall p :: p in n.guard.entries ==> Echo(Modified(p)) in due || Echo(RemovedAt(p)) in due)
    && (forall p :: p in n.guard.renamed ==> Echo(RenamedTo(n.guard.renamed[p], p)) in due)
  }

  lemma SelfOverlap(p: Path)
    ensures Overlap(p, p)
  {
  }

  /** What a node applies is apart from what is due. */
  lemma AppliedBeside(files: Files, ev: Event)
    requires IsMutation(ev) && Applied(files, ev).Ok?
    ensures SameBeside(files, Applied(files, ev).value, Touches(ChangeOf(ev)))
  {
    forall q: Path | Apart([q], Touches(ChangeOf(ev)))
      ensures var g := Applied(files, ev).value; (q in files <==> q in g) && (q in files ==> files[q] == g[q])
    {
      assert q in [q] && ev.path in Touches(ChangeOf(ev)) && !Overlap(q, ev.path);
      if ev.Rename? {
        assert ev.oldPath in Touches(ChangeOf(ev)) && !Overlap(q, ev.oldPath);
      }
    }
  }

  lemma DueSurvives(log: seq<Record>, x: Side, n: Node, cursor: nat, due: seq<Due>, files: Files, ps: seq<Path>)
    requires DueInv(log, x, n, cursor, due) && Clear(due, ps) && SameBeside(n.files, files, ps)
    ensures DueInv(log, x, n.(files := files), cursor, due)
  {
    forall e | e in due ensures DueHolds(log, x, n.(files := files), cursor, e) {
      assert DueHolds(log, x, n, cursor, e) && Apart(DuePaths(e), ps);
      match e
      case Echo(Modified(p)) => assert Apart([p], ps);
      case Copy(p, _) => assert Apart([p], ps);
      case Own(c, _) => assert Apart(Touches(c), ps);
      case _ =>
    }
  }

  lemma DueStable(log: seq<Record>, more: seq<Record>, x: Side, n: Node, cursor: nat, due: seq<Due>,
                  n': Node, cursor': nat)
    requires DueInv(log, x, n, cursor, due) && cursor <= cursor'
    requires n'.files == n.files && n'.guard == n.guard
    ensures DueInv(log + more, x, n', cursor', due)
  {
    forall e | e in due ensures DueHolds(log + more, x, n', cursor', e) {
      assert DueHolds(log, x, n, cursor, e);
    }
  }

  /** The same with the stream as it was. */
  lemma DueKept(log: seq<Record>, x: Side, n: Node, cursor: nat, due: seq<Due>, n': Node, cursor': nat)
    requires DueInv(log, x, n, cursor, due) && cursor <= cursor'
    requires n'.files == n.files && n'.guard == n.guard
    ensures DueInv(log, x, n', cursor', due)
  {
    DueStable(log, [], x, n, cursor, due, n', cursor');
    assert log + [] == log;
  }

  lemma ApartSymmetric(ps: seq<Path>, qs: seq<Path>)
    requires Apart(ps, qs)
    ensures Apart(qs, ps)
  {
  }

  lemma RemovedIn<T>(s: seq<T>, k: nat, e: T) returns (i: nat)
    requires k < |s| && e in Removed(s, k)
    ensures i < |s| && i != k && s[i] == e
  {
    var j: nat :| j < |Removed(s, k)| && Removed(s, k)[j] == e;
    i := if j < k then j else j + 1;
  }

  lemma RemovedParts(due: seq<Due>, k: nat)
    requires PairwiseApart(due) && k < |due|
    ensures PairwiseApart(Removed(due, k))
    ensures forall e :: e in Removed(due, k) ==> e in due && Apart(DuePaths(e), DuePaths(due[k]))
    ensures forall e :: e in due && e != due[k] ==> e in Removed(due, k)
  {
    forall e | e in Removed(due, k) ensures e in due && Apart(DuePaths(e), DuePaths(due[k])) {
      var i := RemovedIn(due, k, e);
      if k < i {
        ApartSymmetric(DuePaths(due[k]), DuePaths(due[i]));
      }
    }
    RemovedKeeps(due, k);
  }

  lemma RemovedKeeps(due: seq<Due>, k: nat)
    requires k < |due|
    ensures forall e :: e in due && e != due[k] ==> e in Removed(due, k)
  {
    forall e | e in due && e != due[k] ensures e in Removed(due, k) {
      var i :| 0 <= i < |due| && due[i] == e;
      assert Removed(due, k)[if i < k then i else i - 1] == e;
    }
  }

  /** A due echo is recognised, and its guard entry goes with it. */
  lemma EchoReported(log: seq<Record>, x: Side, n: Node, cursor: nat, due: seq<Due>, k: nat)
    requires DueInv(log, x, n, cursor, due) && k < |due| && due[k].Echo?
    ensures Echoes(n, due[k].change) && DueInv(log, x, Reported(n, due[k].change), cursor, Removed(due, k))
  {
    var c := due[k].change;
    RemovedParts(due, k);
    assert DueHolds(log, x, n, cursor, due[k]);
    assert c.path in DuePaths(due[k]);
    forall e | e in Removed(due, k) ensures DueHolds(log, x, Reported(n, c), cursor, e) {
      assert DueHolds(log, x, n, cursor, e) && Apart(DuePaths(e), DuePaths(due[k]));
      if e.Echo? {
        assert e.change.path in DuePaths(e) && !Overlap(e.change.path, c.path);
      }
    }
  }

  /** A due conflict file or local change is no echo: it will be published. */
  lemma NewsReported(log: seq<Record>, x: Side, n: Node, cursor: nat, due: seq<Due>, k: nat)
    requires DueInv(log, x, n, cursor, due) && k < |due| && !due[k].Echo?
    ensures !Drops(n, ReportOf(due[k])) && DueInv(log, x, n, cursor, Removed(due, k))
  {
    var c := ReportOf(due[k]);
    RemovedParts(due, k);
    assert DueHolds(log, x, n, cursor, due[k]);
    SelfOverlap(c.path);
    if Echoes(n, c) {
      var e: Due :| e in due && e.Echo? && c.path in DuePaths(e);
    }
  }

  /** A local change, apart from what was due, becomes due itself. */
  lemma ChangeIsDue(log: seq<Record>, x: Side, n: Node, cursor: nat, due: seq<Due>, c: Change, files: Files, k: nat)
    requires DueInv(log, x, n, cursor, due) && Clear(due, Touches(c)) && SameBeside(n.files, files, Touches(c))
    requires !c.Rescan? && (c.Modified? ==> c.path in files)
    ensures DueInv(log, x, n.(files := files), cursor, due + [Own(c, k)])
  {
    DueSurvives(log, x, n, cursor, due, files, Touches(c));
    assert DueHolds(log, x, n.(files := files), cursor, Own(c, k));
  }

  /** A freshly applied change, apart from what was due, becomes due itself. */
  lemma AppliedIsDue(log: seq<Record>, x: Side, n: Node, cursor: nat, due: seq<Due>, ev: Event, cursor': nat)
    requires DueInv(log, x, n, cursor, due) && cursor <= cursor' && IsMutation(ev) && AppliedCleanly(n, ev).Ok?
    requires ev.Write? ==> ev.data.Clear? && ev.hash == ContentHash(ev.data.data)
    requires Clear(due, Touches(ChangeOf(ev)))
    ensures DueInv(log, x, AppliedCleanly(n, ev).value.0, cursor', due + [Echo(ChangeOf(ev))])
  {
    var n' := AppliedCleanly(n, ev).value.0;
    AppliedBeside(n.files, ev);
    DueSurvives(log, x, n, cursor, due, n'.files, Touches(ChangeOf(ev)));
    SelfOverlap(ev.path);
    forall e | e in due + [Echo(ChangeOf(ev))] ensures DueHolds(log, x, n', cursor', e) {
      if e in due {
        assert DueHolds(log, x, n.(files := n'.files), cursor, e) && Apart(DuePaths(e), Touches(ChangeOf(ev)));
        assert ev.path in Touches(ChangeOf(ev));
        if e.Echo? {
          assert e.change.path in DuePaths(e) && !Overlap(e.change.path, ev.path);
        }
      }
    }
    forall p | p in n'.guard.entries
      ensures Echo(Modified(p)) in due + [Echo(ChangeOf(ev))] || Echo(RemovedAt(p)) in due + [Echo(ChangeOf(ev))]
    {
      assert p in n.guard.entries || p == ev.path;
    }
  }

  lemma SetAsideIsDue(log: seq<Record>, x: Side, n: Node, cursor: nat, due: seq<Due>, p: Path, now: nat)
    requires DueInv(log, x, n, cursor, due) && cursor < |log|
    requires var r := log[cursor];
      r.author == x.Other() && r.ev.Write? && p == ConflictPath(r.ev.path, r.ev.origin, now)
    requires Clear(due, [p])
    ensures DueInv(log, x, n.(files := n.files[p := PlainOf(log[cursor].ev)]), cursor + 1, due + [Copy(p, cursor)])
  {
    var n' := n.(files := n.files[p := PlainOf(log[cursor].ev)]);
    assert SameBeside(n.files, n'.files, [p]) by {
      forall q: Path | Apart([q], [p]) ensures q != p {
        assert q in [q] && p in [p];
      }
    }
    DueSurvives(log, x, n, cursor, due, n'.files, [p]);
    forall e | e in due ensures DueHolds(log, x, n', cursor + 1, e) {
      assert DueHolds(log, x, n', cursor, e);
    }
    assert Last(p) == Aside(Last(log[cursor].ev.path), log[cursor].ev.origin, now);
    assert DueHolds(log, x, n', cursor + 1, Copy(p, cursor));
  }

  // ---- Where messages come from ----

  /** Message `m` is the event of its local change, or carries a message's content to a conflict path. */
  predicate SourceHolds(q: QState, m: nat)
    requires m < |q.s.log| && m < |q.sources|
  {
    var r := q.s.log[m];
    && IsMutation(r.ev)
    && match q.sources[m]
       case Genuine(k) => k < |q.changes| && q.changes[k] == (r.author, ChangeOf(r.ev))
       case CopyOf(i) =>
         && i < q.s.Of(r.author).cursor && i < |q.s.log| && q.s.log[i].author == r.author.Other()
         && q.s.log[i].ev.Write? && r.ev.Write? && PlainOf(r.ev) == PlainOf(q.s.log[i].ev)
         && Last(r.ev.path).Aside?
         && r.ev.path == ConflictPath(q.s.log[i].ev.path, q.s.log[i].ev.origin, Last(r.ev.path).at)
  }

  /** Each message has one source, each local change and each conflict file is the source of one message
      at most, and every local change has been published or is due to be. */
  ghost predicate TraceInv(q: QState) {
    && |q.sources| == |q.s.log|
    && (forall m :: 0 <= m < |q.s.log| ==> SourceHolds(q, m))
    && (forall m, n :: 0 <= m < n < |q.sources| ==> q.sources[m] != q.sources[n])
    && (forall k: nat :: k < |q.changes| ==> IsKnown(q, k))
    && (forall x: Side :: NewsTraced(q, x))
  }

  /** Local change `k` is the source of a message, or due to be reported. */
  predicate IsKnown(q: QState, k: nat)
    requires k < |q.changes|
  {
    Genuine(k) in q.sources || Own(q.changes[k].1, k) in q.Due(q.changes[k].0)
  }

  /** What node `x` has still to report is distinct, and not yet the source of a message. */
  ghost predicate NewsTraced(q: QState, x: Side) {
    && (forall e, src :: e in q.Due(x) && src in SourcesOf(e) ==> src !in q.sources)
    && (forall i, j :: 0 <= i < j < |q.Due(x)| && !q.Due(x)[i].Echo? ==>
          SourcesOf(q.Due(x)[i]) != SourcesOf(q.Due(x)[j]))
    && (forall e :: e in q.Due(x) && e.Own? ==> e.k < |q.changes| && q.changes[e.k] == (x, e.change))
  }

  /** Only copies are written beyond depth `d`, and those a node writes are of its peer's files. */
  ghost predicate DepthInv(s: State, d: nat) {
    forall i: nat :: i < |s.log| && s.log[i].ev.Write? && Depth(s.log[i].ev.path) > d ==>
      Last(s.log[i].ev.path).Aside? && Last(s.log[i].ev.path).origin == s.Id(s.log[i].author.Other())
  }

  /** Local changes are made to paths of depth at most `d`. */
  predicate ChangesShallow(changes: seq<(Side, Change)>, d: nat) {
    forall k :: 0 <= k < |changes| && changes[k].1.Modified? ==> Depth(changes[k].1.path) <= d
  }

  ghost predicate QInv(keys: Option<Keys>, q: QState, d: nat) {
    && CountInv(q.s) && ChainInv(keys, q.s) && TraceInv(q) && DepthInv(q.s, d) && ChangesShallow(q.changes, d)
    && (forall x: Side :: q.s.Of(x).cursor <= |q.s.log| &&
                          DueInv(q.s.log, x, q.s.Of(x).node, q.s.Of(x).cursor, q.Due(x)))
  }

  // ---- Weights: every step but a local change costs something ----

  function DepthWeight(depth: nat, d: nat): nat {
    if depth <= d then 2 + 3 * (d + 1 - depth) else 2
  }

  function EventWeight(ev: Event, d: nat): nat {
    if ev.Write? then DepthWeight(Depth(ev.path), d) else 2
  }

  function DueWeight(e: Due, d: nat): nat {
    if e.Echo? then 1
    else if ReportOf(e).Modified? then DepthWeight(Depth(ReportOf(e).path), d) + 2
    else 4
  }

  function DueLoad(due: seq<Due>, d: nat): nat {
    if due == [] then 0 else DueWeight(due[0], d) + DueLoad(due[1..], d)
  }

  /** What reading the messages from `k` on costs node `x`. */
  function Unread(log: seq<Record>, x: Side, d: nat, k: nat): nat
    requires k <= |log|
    decreases |log| - k
  {
    if k == |log| then 0
    else (if log[k].author == x then 1 else EventWeight(log[k].ev, d)) + Unread(log, x, d, k + 1)
  }

  function SideLoad(q: QState, x: Side, d: nat): nat
    requires q.s.Of(x).cursor <= |q.s.log|
  {
    Unread(q.s.log, x, d, q.s.Of(x).cursor) + DueLoad(q.Due(x), d)
  }

  /** The steps a session can still take, at most. */
  function Remaining(q: QState, d: nat): nat
    requires q.s.a.cursor <= |q.s.log| && q.s.b.cursor <= |q.s.log|
  {
    q.left * (3 * d + 8) + SideLoad(q, A, d) + SideLoad(q, B, d)
  }

  lemma {:induction false} UnreadAppend(log: seq<Record>, r: Record, x: Side, d: nat, k: nat)
    requires k <= |log|
    ensures Unread(log + [r], x, d, k) == Unread(log, x, d, k) + if r.author == x then 1 else EventWeight(r.ev, d)
    decreases |log| - k
  {
    if k < |log| {
      UnreadAppend(log, r, x, d, k + 1);
    } else {
      assert Unread(log + [r], x, d, k + 1) == 0;
    }
  }

  lemma {:induction false} DueLoadSplit(a: seq<Due>, b: seq<Due>, d: nat)
    ensures DueLoad(a + b, d) == DueLoad(a, d) + DueLoad(b, d)
  {
    if a == [] {
      assert a + b == b;
    } else {
      assert (a + b)[1..] == a[1..] + b;
      DueLoadSplit(a[1..], b, d);
    }
  }

  lemma DueLoadRemoved(due: seq<Due>, k: nat, d: nat)
    requires k < |due|
    ensures DueLoad(Removed(due, k), d) + DueWeight(due[k], d) == DueLoad(due, d)
  {
    assert due == due[..k] + ([due[k]] + due[k + 1..]);
    DueLoadSplit(due[..k], [due[k]] + due[k + 1..], d);
    DueLoadSplit(due[..k], due[k + 1..], d);
    assert ([due[k]] + due[k + 1..])[1..] == due[k + 1..];
  }

  lemma CopyIsDeeper(p: Path, origin: MachineId, now: nat)
    ensures Depth(ConflictPath(p, origin, now)) == Depth(p) + 1
  {
    assert Last(ConflictPath(p, origin, now)) == Aside(Last(p), origin, now);
  }

  // ---- Every step keeps the trace and lightens the load ----

  /** `t` is `q` with one more message, by `x`, whose source is `src`. */
  ghost predicate IsPublication(q: QState, x: Side, t: QState, r: Record, src: Source) {
    && t.s.log == q.s.log + [r] && r.author == x && t.sources == q.sources + [src]
    && t.s.a.cursor == q.s.a.cursor && t.s.b.cursor == q.s.b.cursor
    && t.s.Id(A) == q.s.Id(A) && t.s.Id(B) == q.s.Id(B)
    && |q.changes| <= |t.changes| && t.changes[..|q.changes|] == q.changes
  }

  lemma PublicationTrace(q: QState, x: Side, t: QState, r: Record, src: Source)
    requires TraceInv(q) && IsPublication(q, x, t, r, src) && t.changes == q.changes
    requires SourceHolds(t, |q.s.log|) && src !in q.sources
    requires forall z: Side, e :: e in q.Due(z) && SourcesOf(e) != [src] ==> e in t.Due(z)
    requires forall z: Side :: NewsTraced(t, z)
    ensures TraceInv(t)
  {
    forall m | 0 <= m < |t.s.log| ensures SourceHolds(t, m) {
      if m < |q.s.log| {
        assert SourceHolds(q, m);
      }
    }
    assert t.sources[|q.sources|] == src;
    forall k: nat | k < |t.changes| ensures IsKnown(t, k) {
      assert IsKnown(q, k);
      var e := Own(q.changes[k].1, k);
      assert SourcesOf(e) == [Genuine(k)] && (Genuine(k) == src ==> SourcesOf(e) == [src]);
    }
  }

  lemma PublicationDepth(q: QState, x: Side, t: QState, r: Record, src: Source, d: nat)
    requires DepthInv(q.s, d) && IsPublication(q, x, t, r, src)
    requires r.ev.Write? && Depth(r.ev.path) > d ==>
      Last(r.ev.path).Aside? && Last(r.ev.path).origin == q.s.Id(x.Other())
    ensures DepthInv(t.s, d)
  {
  }

  lemma PublicationLoad(q: QState, x: Side, t: QState, r: Record, d: nat)
    requires q.s.a.cursor <= |q.s.log| && q.s.b.cursor <= |q.s.log| && t.s.log == q.s.log + [r] && r.author == x
    requires t.s.a.cursor == q.s.a.cursor && t.s.b.cursor == q.s.b.cursor
    ensures Unread(t.s.log, x, d, t.s.Of(x).cursor) == Unread(q.s.log, x, d, q.s.Of(x).cursor) + 1
    ensures Unread(t.s.log, x.Other(), d, t.s.Of(x.Other()).cursor)
            == Unread(q.s.log, x.Other(), d, q.s.Of(x.Other()).cursor) + EventWeight(r.ev, d)
  {
    UnreadAppend(q.s.log, r, x, d, q.s.Of(x).cursor);
    UnreadAppend(q.s.log, r, x.Other(), d, q.s.Of(x.Other()).cursor);
  }

  lemma OtherDueStable(q: QState, x: Side, t: QState, more: seq<Record>)
    requires t.s.log == q.s.log + more && t.s.Of(x.Other()) == q.s.Of(x.Other()) && t.Due(x.Other()) == q.Due(x.Other())
    requires DueInv(q.s.log, x.Other(), q.s.Of(x.Other()).node, q.s.Of(x.Other()).cursor, q.Due(x.Other()))
    ensures DueInv(t.s.log, x.Other(), t.s.Of(x.Other()).node, t.s.Of(x.Other()).cursor, t.Due(x.Other()))
  {
    var l := q.s.Of(x.Other());
    DueStable(q.s.log, more, x.Other(), l.node, l.cursor, q.Due(x.Other()), l.node, l.cursor);
  }

  /** The counts and the chains, after a step of the session itself. */
  lemma CoreStep(keys: Option<Keys>, s: State, x: Side, step: Step)
    requires CountInv(s) && ChainInv(keys, s) && Next(s, x, step).Some?
    ensures CountInv(Next(s, x, step).value) && ChainInv(keys, Next(s, x, step).value)
  {
    StepCounts(s, x, step);
    StepChains(keys, s, x, step);
  }

  lemma LocalChangeStep(keys: Option<Keys>, q: QState, x: Side, c: Change, files: Files, d: nat)
    requires QInv(keys, q, d) && MayChange(q, x, c, files, d)
    ensures QNext(q, x, LocalChange(c, files), d).Some?
    ensures var t := QNext(q, x, LocalChange(c, files), d).value; QInv(keys, t, d) && Remaining(t, d) < Remaining(q, d)
  {
    var t := LocalShape(q, x, c, files, d);
    CoreStep(keys, q.s, x, UserTree(files));
    assert t.s.log + [] == t.s.log;
    OtherDueStable(q, x, t, []);
    LocalTrace(q, x, t, c);
    BothSides(keys, t, x, d);
    LoadOfChange(q, x, t, c, d);
  }

  lemma LocalShape(q: QState, x: Side, c: Change, files: Files, d: nat) returns (t: QState)
    requires MayChange(q, x, c, files, d)
    requires DueInv(q.s.log, x, q.s.Of(x).node, q.s.Of(x).cursor, q.Due(x))
    ensures QNext(q, x, LocalChange(c, files), d) == Some(t) && Next(q.s, x, UserTree(files)) == Some(t.s)
    ensures t.s.log == q.s.log && t.sources == q.sources && t.left == q.left - 1
    ensures t.changes == q.changes + [(x, c)] && (ChangesShallow(q.changes, d) ==> ChangesShallow(t.changes, d))
    ensures t.s.Of(x.Other()) == q.s.Of(x.Other()) && t.s.a.cursor == q.s.a.cursor && t.s.b.cursor == q.s.b.cursor
    ensures t.s.Id(A) == q.s.Id(A) && t.s.Id(B) == q.s.Id(B)
    ensures t.Due(x) == q.Due(x) + [Own(c, |q.changes|)] && t.Due(x.Other()) == q.Due(x.Other())
    ensures DueInv(t.s.log, x, t.s.Of(x).node, t.s.Of(x).cursor, t.Due(x))
  {
    t := QNext(q, x, LocalChange(c, files), d).value;
    ChangeIsDue(q.s.log, x, q.s.Of(x).node, q.s.Of(x).cursor, q.Due(x), c, files, |q.changes|);
  }

  lemma LocalTrace(q: QState, x: Side, t: QState, c: Change)
    requires TraceInv(q) && t.s.log == q.s.log && t.sources == q.sources && t.changes == q.changes + [(x, c)]
    requires t.s.a.cursor == q.s.a.cursor && t.s.b.cursor == q.s.b.cursor
    requires t.Due(x) == q.Due(x) + [Own(c, |q.changes|)] && t.Due(x.Other()) == q.Due(x.Other())
    ensures TraceInv(t)
  {
    forall m | 0 <= m < |q.sources| ensures SourceHolds(t, m) && q.sources[m] != Genuine(|q.changes|) {
      assert SourceHolds(q, m);
    }
    forall z: Side ensures NewsTraced(t, z) && forall e :: e in q.Due(z) ==> e in t.Due(z) {
      assert NewsTraced(q, z) && (z == x || z == x.Other());
    }
    forall k: nat | k < |t.changes| ensures IsKnown(t, k) {
      if k < |q.changes| {
        assert IsKnown(q, k);
      } else {
        assert t.Due(x)[|q.Due(x)|] == Own(c, k);
      }
    }
  }

  lemma BothSides(keys: Option<Keys>, t: QState, x: Side, d: nat)
    requires CountInv(t.s) && ChainInv(keys, t.s) && TraceInv(t) && DepthInv(t.s, d) && ChangesShallow(t.changes, d)
    requires DueInv(t.s.log, x, t.s.Of(x).node, t.s.Of(x).cursor, t.Due(x))
    requires DueInv(t.s.log, x.Other(), t.s.Of(x.Other()).node, t.s.Of(x.Other()).cursor, t.Due(x.Other()))
    ensures QInv(keys, t, d)
  {
    forall z: Side ensures t.s.Of(z).cursor <= |t.s.log| &&
      DueInv(t.s.log, z, t.s.Of(z).node, t.s.Of(z).cursor, t.Due(z))
    {
      assert LocalCounts(IdsOf(t.s), t.s.log, z, t.s.Of(z).cursor, t.s.Of(z).node.versions);
      assert z == x || z == x.Other();
    }
  }

  lemma LoadOfChange(q: QState, x: Side, t: QState, c: Change, d: nat)
    requires q.left > 0 && t.left == q.left - 1 && t.s.log == q.s.log
    requires q.s.a.cursor <= |q.s.log| && q.s.b.cursor <= |q.s.log|
    requires t.s.a.cursor == q.s.a.cursor && t.s.b.cursor == q.s.b.cursor
    requires t.Due(x) == q.Due(x) + [Own(c, |q.changes|)] && t.Due(x.Other()) == q.Due(x.Other())
    ensures Remaining(t, d) < Remaining(q, d)
  {
    var e := Own(c, |q.changes|);
    DueLoadSplit(q.Due(x), [e], d);
    assert [e][1..] == [];
    assert DueWeight(e, d) <= 3 * d + 7;
    assert q.left * (3 * d + 8) == t.left * (3 * d + 8) + (3 * d + 8);
  }

  /** An echo that is due is dropped: nothing is published. */
  lemma EchoStep(keys: Option<Keys>, q: QState, x: Side, k: nat, d: nat)
    requires QInv(keys, q, d) && k < |q.Due(x)| && q.Due(x)[k].Echo?
    ensures QNext(q, x, ReportDue(k), d).Some?
    ensures var t := QNext(q, x, ReportDue(k), d).value;
      QInv(keys, t, d) && Remaining(t, d) < Remaining(q, d) && t.s.log == q.s.log
  {
    var t := EchoDropped(q, x, k, d);
    CoreStep(keys, q.s, x, Report(q.Due(x)[k].change));
    EchoKept(keys, q, x, k, t, d);
  }

  lemma EchoKept(keys: Option<Keys>, q: QState, x: Side, k: nat, t: QState, d: nat)
    requires QInv(keys, q, d) && CountInv(t.s) && ChainInv(keys, t.s) && k < |q.Due(x)| && q.Due(x)[k].Echo?
    requires t.sources == q.sources && t.changes == q.changes && t.left == q.left && t.s.log == q.s.log + [] == q.s.log
    requires t.Due(x) == Removed(q.Due(x), k) && t.Due(x.Other()) == q.Due(x.Other())
    requires t.s.Of(x.Other()) == q.s.Of(x.Other()) && t.s.a.cursor == q.s.a.cursor && t.s.b.cursor == q.s.b.cursor
    requires t.s.Id(A) == q.s.Id(A) && t.s.Id(B) == q.s.Id(B)
    requires DueInv(t.s.log, x, t.s.Of(x).node, t.s.Of(x).cursor, t.Due(x))
    ensures QInv(keys, t, d) && Remaining(t, d) < Remaining(q, d)
  {
    OtherDueStable(q, x, t, []);
    DueTrace(q, x, k, t);
    BothSides(keys, t, x, d);
    EchoLoad(q, x, k, t, d);
  }

  lemma EchoLoad(q: QState, x: Side, k: nat, t: QState, d: nat)
    requires k < |q.Due(x)| && t.s.log == q.s.log && t.left == q.left
    requires t.Due(x) == Removed(q.Due(x), k) && t.Due(x.Other()) == q.Due(x.Other())
    requires q.s.a.cursor <= |q.s.log| && q.s.b.cursor <= |q.s.log|
    requires t.s.a.cursor == q.s.a.cursor && t.s.b.cursor == q.s.b.cursor
    ensures Remaining(t, d) < Remaining(q, d)
  {
    DueLoadRemoved(q.Due(x), k, d);
  }

  lemma EchoDropped(q: QState, x: Side, k: nat, d: nat) returns (t: QState)
    requires k < |q.Due(x)| && q.Due(x)[k].Echo?
    requires DueInv(q.s.log, x, q.s.Of(x).node, q.s.Of(x).cursor, q.Due(x))
    ensures QNext(q, x, ReportDue(k), d) == Some(t) && Next(q.s, x, Report(q.Due(x)[k].change)) == Some(t.s)
    ensures t.sources == q.sources && t.changes == q.changes && t.left == q.left && t.s.log == q.s.log + [] == q.s.log
    ensures t.s.Id(A) == q.s.Id(A) && t.s.Id(B) == q.s.Id(B)
    ensures t.Due(x) == Removed(q.Due(x), k) && t.Due(x.Other()) == q.Due(x.Other())
    ensures t.s.Of(x.Other()) == q.s.Of(x.Other()) && t.s.a.cursor == q.s.a.cursor && t.s.b.cursor == q.s.b.cursor
    ensures DueInv(t.s.log, x, t.s.Of(x).node, t.s.Of(x).cursor, t.Due(x))
  {
    EchoReported(q.s.log, x, q.s.Of(x).node, q.s.Of(x).cursor, q.Due(x), k);
    t := QNext(q, x, ReportDue(k), d).value;
  }

  /** Reporting a due echo leaves the trace as it was. */
  lemma DueTrace(q: QState, x: Side, k: nat, t: QState)
    requires TraceInv(q) && k < |q.Due(x)| && q.Due(x)[k].Echo?
    requires t.s.log == q.s.log && t.sources == q.sources && t.changes == q.changes
    requires t.s.a.cursor == q.s.a.cursor && t.s.b.cursor == q.s.b.cursor
    requires t.Due(x) == Removed(q.Due(x), k) && t.Due(x.Other()) == q.Due(x.Other())
    ensures TraceInv(t)
  {
    forall m | 0 <= m < |t.s.log| ensures SourceHolds(t, m) {
      assert SourceHolds(q, m);
    }
    NewsLeft(q, x, k, t);
    forall z: Side ensures NewsTraced(t, z) {
      assert NewsTraced(q, z);
      assert z == x || z == x.Other();
    }
    forall j: nat | j < |t.changes| ensures IsKnown(t, j) {
      assert IsKnown(q, j);
      RemovedKeeps(q.Due(x), k);
    }
  }

  lemma NewsLeft(q: QState, x: Side, k: nat, t: QState)
    requires NewsTraced(q, x) && k < |q.Due(x)| && t.Due(x) == Removed(q.Due(x), k)
    requires t.sources == q.sources && t.changes == q.changes
    ensures NewsTraced(t, x)
    ensures !q.Due(x)[k].Echo? ==> forall e :: e in t.Due(x) ==> SourcesOf(e) != SourcesOf(q.Due(x)[k])
  {
    var due, rest := q.Due(x), t.Due(x);
    forall i | 0 <= i < |rest| ensures rest[i] == due[if i < k then i else i + 1] {
    }
  }

  /** A conflict file or a local change that is due is published, as itself. */
  lemma NewsStep(keys: Option<Keys>, q: QState, x: Side, k: nat, d: nat)
    requires QInv(keys, q, d) && k < |q.Due(x)| && !q.Due(x)[k].Echo?
    ensures QNext(q, x, ReportDue(k), d).Some?
    ensures var t := QNext(q, x, ReportDue(k), d).value; QInv(keys, t, d) && Remaining(t, d) < Remaining(q, d)
  {
    var due := q.Due(x)[k];
    var t, r := NewsPublished(q, x, k, d);
    CoreStep(keys, q.s, x, Report(ReportOf(due)));
    OtherDueStable(q, x, t, [r]);
    NewsTrace(q, x, k, t, r);
    NewsDepth(q, x, k, t, r, d);
    BothSides(keys, t, x, d);
    NewsCosts(q, x, k, t, r, d);
  }

  lemma NewsDepth(q: QState, x: Side, k: nat, t: QState, r: Record, d: nat)
    requires CountInv(q.s) && DepthInv(q.s, d) && ChangesShallow(q.changes, d) && NewsTraced(q, x) && k < |q.Due(x)|
    requires !q.Due(x)[k].Echo? && DueHolds(q.s.log, x, q.s.Of(x).node, q.s.Of(x).cursor, q.Due(x)[k])
    requires IsPublication(q, x, t, r, SourcesOf(q.Due(x)[k])[0]) && IsMutation(r.ev)
    requires ChangeOf(r.ev) == ReportOf(q.Due(x)[k])
    ensures DepthInv(t.s, d)
  {
    var due := q.Due(x)[k];
    assert due in q.Due(x);
    if due.Copy? {
      assert RecordCounts(IdsOf(q.s), q.s.log, due.index);
    }
    PublicationDepth(q, x, t, r, SourcesOf(due)[0], d);
  }

  lemma NewsCosts(q: QState, x: Side, k: nat, t: QState, r: Record, d: nat)
    requires q.s.a.cursor <= |q.s.log| && q.s.b.cursor <= |q.s.log| && t.left == q.left
    requires k < |q.Due(x)| && !q.Due(x)[k].Echo? && IsPublication(q, x, t, r, SourcesOf(q.Due(x)[k])[0])
    requires IsMutation(r.ev) && ChangeOf(r.ev) == ReportOf(q.Due(x)[k])
    requires t.Due(x) == Removed(q.Due(x), k) && t.Due(x.Other()) == q.Due(x.Other())
    ensures Remaining(t, d) < Remaining(q, d)
  {
    PublicationLoad(q, x, t, r, d);
    DueLoadRemoved(q.Due(x), k, d);
  }

  /** A report that is no echo is published as the change it reports, with the content on disk. */
  lemma ReportPublishes(s: State, x: Side, c: Change, due: seq<Due>) returns (t: State, r: Record)
    requires !Drops(s.Of(x).node, c) && DueInv(s.log, x, s.Of(x).node, s.Of(x).cursor, due)
    ensures Next(s, x, Report(c)) == Some(t) && t.log == s.log + [r] && r.author == x
    ensures IsMutation(r.ev) && ChangeOf(r.ev) == c
    ensures r.ev.Write? ==> r.ev.path in s.Of(x).node.files && PlainOf(r.ev) == s.Of(x).node.files[r.ev.path]
    ensures t.Of(x.Other()) == s.Of(x.Other()) && t.a.cursor == s.a.cursor && t.b.cursor == s.b.cursor
    ensures t.Id(A) == s.Id(A) && t.Id(B) == s.Id(B)
    ensures DueInv(t.log, x, t.Of(x).node, t.Of(x).cursor, due)
  {
    t := Next(s, x, Report(c)).value;
    r := t.log[|s.log|];
    DueStable(s.log, [r], x, s.Of(x).node, s.Of(x).cursor, due, t.Of(x).node, s.Of(x).cursor);
  }

  lemma NewsPublished(q: QState, x: Side, k: nat, d: nat) returns (t: QState, r: Record)
    requires k < |q.Due(x)| && !q.Due(x)[k].Echo?
    requires DueInv(q.s.log, x, q.s.Of(x).node, q.s.Of(x).cursor, q.Due(x))
    ensures QNext(q, x, ReportDue(k), d) == Some(t) && Next(q.s, x, Report(ReportOf(q.Due(x)[k]))) == Some(t.s)
    ensures IsPublication(q, x, t, r, SourcesOf(q.Due(x)[k])[0]) && t.changes == q.changes && t.left == q.left
    ensures t.Due(x) == Removed(q.Due(x), k) && t.Due(x.Other()) == q.Due(x.Other())
    ensures t.s.Of(x.Other()) == q.s.Of(x.Other()) && IsMutation(r.ev) && ChangeOf(r.ev) == ReportOf(q.Due(x)[k])
    ensures r.ev.Write? ==> r.ev.path in q.s.Of(x).node.files && PlainOf(r.ev) == q.s.Of(x).node.files[r.ev.path]
    ensures DueHolds(q.s.log, x, q.s.Of(x).node, q.s.Of(x).cursor, q.Due(x)[k])
    ensures DueInv(t.s.log, x, t.s.Of(x).node, t.s.Of(x).cursor, t.Due(x))
  {
    var l, due := q.s.Of(x), q.Due(x)[k];
    assert DueHolds(q.s.log, x, l.node, l.cursor, due);
    NewsReported(q.s.log, x, l.node, l.cursor, q.Due(x), k);
    var s;
    s, r := ReportPublishes(q.s, x, ReportOf(due), Removed(q.Due(x), k));
    t := q.WithDue(x, Removed(q.Due(x), k)).(s := s, sources := q.sources + SourcesOf(due));
  }

  lemma NewsTrace(q: QState, x: Side, k: nat, t: QState, r: Record)
    requires CountInv(q.s) && TraceInv(q) && k < |q.Due(x)| && !q.Due(x)[k].Echo?
    requires IsPublication(q, x, t, r, SourcesOf(q.Due(x)[k])[0]) && t.changes == q.changes
    requires forall z: Side, e :: e in q.Due(z) ==> DueHolds(q.s.log, z, q.s.Of(z).node, q.s.Of(z).cursor, e)
    requires IsMutation(r.ev) && ChangeOf(r.ev) == ReportOf(q.Due(x)[k])
    requires r.ev.Write? ==> r.ev.path in q.s.Of(x).node.files && PlainOf(r.ev) == q.s.Of(x).node.files[r.ev.path]
    requires t.Due(x) == Removed(q.Due(x), k) && t.Due(x.Other()) == q.Due(x.Other())
    ensures TraceInv(t)
  {
    var due := q.Due(x)[k];
    assert due in q.Due(x) && NewsTraced(q, x) && NewsTraced(q, x.Other());
    assert SourceHolds(t, |q.s.log|);
    NewsLeft(q, x, k, t.(sources := q.sources));
    forall e | e in q.Due(x.Other()) ensures SourcesOf(e) != SourcesOf(due) {
      assert DueHolds(q.s.log, x.Other(), q.s.Of(x.Other()).node, q.s.Of(x.Other()).cursor, e);
    }
    forall z: Side ensures NewsTraced(t, z) {
      assert z == x || z == x.Other();
    }
    RemovedKeeps(q.Due(x), k);
    PublicationTrace(q, x, t, r, SourcesOf(due)[0]);
  }

  // ---- Deliveries ----

  /** A clean apply, with what decryption and the version store changed before it. */
  lemma ReceivedCleanly(keys: Option<Keys>, s: State, x: Side, now: nat) returns (n: Node, ev: Event)
    requires CountInv(s) && ChainInv(keys, s) && s.Of(x).cursor < |s.log|
    requires var r := s.log[s.Of(x).cursor]; r.author == x.Other() && IsMutation(r.ev)
    requires var r := Received(s.Of(x).node, s.log[s.Of(x).cursor].ev, now); r.Ok? && r.value.1 == AppliedIt
    ensures AppliedCleanly(n, ev) == Received(s.Of(x).node, s.log[s.Of(x).cursor].ev, now)
    ensures n.files == s.Of(x).node.files && n.guard == s.Of(x).node.guard
    ensures IsMutation(ev) && ChangeOf(ev) == ChangeOf(s.log[s.Of(x).cursor].ev)
    ensures ev.Write? ==> ev.data.Clear? && ev.hash == ContentHash(ev.data.data)
  {
    var l, c := s.Of(x), s.Of(x).cursor;
    assert RecordCounts(IdsOf(s), s.log, c) && RecordSealed(keys, s.log, c);
    if s.log[c].ev.Write? {
      NeverFailsToDecrypt(keys, s, x, now);
    }
    var pair := Decrypted(l.node, s.log[c].ev).value;
    ev := pair.1;
    n := if ev.Write? then pair.0.(versions := StoreAfter(pair.0.versions, ev.path, ev.version)) else pair.0;
  }

  /** The parts of a delivery that do not depend on what it decided. */
  lemma DeliverShape(q: QState, x: Side, now: nat, d: nat) returns (t: QState)
    requires QNext(q, x, DeliverNext(now), d).Some?
    ensures QNext(q, x, DeliverNext(now), d) == Some(t) && Next(q.s, x, Deliver(now)) == Some(t.s)
    ensures t.s == q.s.With(x, t.s.Of(x)) && t.s.log == q.s.log && t.s.Of(x).cursor == q.s.Of(x).cursor + 1
    ensures t.sources == q.sources && t.changes == q.changes && t.left == q.left
    ensures t.Due(x.Other()) == q.Due(x.Other()) && t.s.Of(x.Other()) == q.s.Of(x.Other())
    ensures q.s.log[q.s.Of(x).cursor].author == x ==> t.Due(x) == q.Due(x) && t.s.Of(x).node == q.s.Of(x).node
    ensures q.s.log[q.s.Of(x).cursor].author != x ==>
      var (c, ev) := (q.s.Of(x).cursor, q.s.log[q.s.Of(x).cursor].ev);
      var r := Received(q.s.Of(x).node, ev, now);
      && IsMutation(ev) && r.Ok? && t.s.Of(x).node == r.value.0 && t.Due(x) == q.Due(x) + NewDue(ev, r.value.1, c)
      && Clear(q.Due(x), ChangedPaths(ev, r.value.1))
  {
    t := QNext(q, x, DeliverNext(now), d).value;
  }

  lemma AppliedDue(keys: Option<Keys>, s: State, x: Side, now: nat, due: seq<Due>)
    requires CountInv(s) && ChainInv(keys, s) && s.Of(x).cursor < |s.log|
    requires DueInv(s.log, x, s.Of(x).node, s.Of(x).cursor, due)
    requires var r := s.log[s.Of(x).cursor];
      r.author == x.Other() && IsMutation(r.ev) && Clear(due, Touches(ChangeOf(r.ev)))
    requires var r := Received(s.Of(x).node, s.log[s.Of(x).cursor].ev, now); r.Ok? && r.value.1 == AppliedIt
    ensures var ev := s.log[s.Of(x).cursor].ev;
      DueInv(s.log, x, Received(s.Of(x).node, ev, now).value.0, s.Of(x).cursor + 1, due + [Echo(ChangeOf(ev))])
  {
    var l, c := s.Of(x), s.Of(x).cursor;
    var n, ev := ReceivedCleanly(keys, s, x, now);
    DueKept(s.log, x, l.node, c, due, n, c);
    AppliedIsDue(s.log, x, n, c, due, ev, c + 1);
  }

  lemma SetAsideDue(keys: Option<Keys>, s: State, x: Side, now: nat, due: seq<Due>)
    requires CountInv(s) && ChainInv(keys, s) && NextIsPeerWrite(s, x)
    requires DueInv(s.log, x, s.Of(x).node, s.Of(x).cursor, due)
    requires var r := Received(s.Of(x).node, s.log[s.Of(x).cursor].ev, now);
      r.Ok? && r.value.1.SetAside? && Clear(due, [r.value.1.path])
    ensures var r := Received(s.Of(x).node, s.log[s.Of(x).cursor].ev, now).value;
      DueInv(s.log, x, r.0, s.Of(x).cursor + 1, due + [Copy(r.1.path, s.Of(x).cursor)])
  {
    var l, c := s.Of(x), s.Of(x).cursor;
    var (node, outcome) := Received(l.node, s.log[c].ev, now).value;
    SetAsideFiles(keys, s, x, now);
    SetAsideIsDue(s.log, x, l.node, c, due, outcome.path, now);
    DueKept(s.log, x, l.node.(files := node.files), c + 1, due + [Copy(outcome.path, c)], node, c + 1);
  }

  /** A mutation received is applied or, if it is a write, set aside. */
  lemma AppliedOrSetAside(s: State, x: Side, now: nat)
    requires CountInv(s) && s.Of(x).cursor < |s.log|
    requires s.log[s.Of(x).cursor].author == x.Other() && IsMutation(s.log[s.Of(x).cursor].ev)
    requires Received(s.Of(x).node, s.log[s.Of(x).cursor].ev, now).Ok?
    ensures var o := Received(s.Of(x).node, s.log[s.Of(x).cursor].ev, now).value.1;
      o.AppliedIt? || (o.SetAside? && s.log[s.Of(x).cursor].ev.Write?)
  {
    if s.log[s.Of(x).cursor].ev.Write? {
      FirstDelivery(s, x, now);
    } else {
      assert RecordCounts(IdsOf(s), s.log, s.Of(x).cursor);
    }
  }

  lemma SetAsideFiles(keys: Option<Keys>, s: State, x: Side, now: nat)
    requires CountInv(s) && ChainInv(keys, s) && NextIsPeerWrite(s, x)
    requires Received(s.Of(x).node, s.log[s.Of(x).cursor].ev, now).Ok?
    requires Received(s.Of(x).node, s.log[s.Of(x).cursor].ev, now).value.1.SetAside?
    ensures var r := s.log[s.Of(x).cursor];
      var node := Received(s.Of(x).node, r.ev, now).value.0;
      var p := ConflictPath(r.ev.path, r.ev.origin, now);
      && Received(s.Of(x).node, r.ev, now).value.1 == SetAside(p)
      && node.files == s.Of(x).node.files[p := PlainOf(r.ev)] && node.guard == s.Of(x).node.guard
  {
    NeverFailsToDecrypt(keys, s, x, now);
  }

  /** A conflict needs a local write the author had not seen, so it never strikes beyond depth `d`. */
  lemma ConflictsAreShallow(q: QState, x: Side, now: nat, d: nat)
    requires CountInv(q.s) && DepthInv(q.s, d) && NextIsPeerWrite(q.s, x)
    requires Received(q.s.Of(x).node, q.s.log[q.s.Of(x).cursor].ev, now).Ok?
    requires Received(q.s.Of(x).node, q.s.log[q.s.Of(x).cursor].ev, now).value.1.SetAside?
    ensures Depth(q.s.log[q.s.Of(x).cursor].ev.path) <= d
  {
    var r := q.s.log[q.s.Of(x).cursor];
    FirstDelivery(q.s, x, now);
    var i :| 0 <= i < |q.s.log| && IsWriteBy(q.s.log[i], x, r.ev.path) && !(i < r.at);
    assert x.Other().Other() == x;
  }

  lemma DeliveredTrace(q: QState, x: Side, t: QState)
    requires TraceInv(q) && q.s.Of(x).cursor < |q.s.log| && t.s == q.s.With(x, t.s.Of(x))
    requires t.s.Of(x).cursor == q.s.Of(x).cursor + 1 && t.sources == q.sources && t.changes == q.changes
    requires forall e :: e in q.Due(x) && e.Copy? ==> e.index < q.s.Of(x).cursor
    requires t.Due(x.Other()) == q.Due(x.Other())
    requires t.Due(x) == q.Due(x) ||
      (q.s.log[q.s.Of(x).cursor].author == x.Other() &&
       exists e :: t.Due(x) == q.Due(x) + [e] && !e.Own? && (e.Copy? ==> e.index == q.s.Of(x).cursor))
    ensures TraceInv(t)
  {
    forall m | 0 <= m < |t.s.log| ensures SourceHolds(t, m) {
      assert SourceHolds(q, m);
    }
    assert NewsTraced(q, x) && NewsTraced(q, x.Other());
    if q.s.log[q.s.Of(x).cursor].author == x.Other() {
      forall m | 0 <= m < |q.sources| ensures q.sources[m] != CopyOf(q.s.Of(x).cursor) {
        assert SourceHolds(q, m);
      }
    }
    forall z: Side ensures NewsTraced(t, z) && forall e :: e in q.Due(z) ==> e in t.Due(z) {
      assert z == x || z == x.Other();
    }
    forall k: nat | k < |t.changes| ensures IsKnown(t, k) {
      assert IsKnown(q, k);
    }
  }

  lemma DeliveredLoad(q: QState, x: Side, t: QState, d: nat)
    requires q.s.a.cursor <= |q.s.log| && q.s.b.cursor <= |q.s.log| && q.s.Of(x).cursor < |q.s.log|
    requires t.s == q.s.With(x, t.s.Of(x)) && t.s.Of(x).cursor == q.s.Of(x).cursor + 1
    requires t.left == q.left && t.Due(x.Other()) == q.Due(x.Other())
    requires var r := q.s.log[q.s.Of(x).cursor];
      || t.Due(x) == q.Due(x)
      || (r.author != x && exists e :: t.Due(x) == q.Due(x) + [e] && DueWeight(e, d) < EventWeight(r.ev, d))
    ensures Remaining(t, d) < Remaining(q, d)
  {
    if t.Due(x) != q.Due(x) {
      var e :| t.Due(x) == q.Due(x) + [e] && DueWeight(e, d) < EventWeight(q.s.log[q.s.Of(x).cursor].ev, d);
      DueLoadSplit(q.Due(x), [e], d);
      assert [e][1..] == [];
    }
  }

  /** What is due after a delivery is what the node's guard expects. */
  lemma DeliveredDue(keys: Option<Keys>, q: QState, x: Side, now: nat, d: nat, t: QState)
    requires CountInv(q.s) && ChainInv(keys, q.s) && QNext(q, x, DeliverNext(now), d) == Some(t)
    requires DueInv(q.s.log, x, q.s.Of(x).node, q.s.Of(x).cursor, q.Due(x))
    ensures DueInv(t.s.log, x, t.s.Of(x).node, t.s.Of(x).cursor, t.Due(x))
  {
    var t' := DeliverShape(q, x, now, d);
    var l, c := q.s.Of(x), q.s.Of(x).cursor;
    if q.s.log[c].author == x {
      DueKept(q.s.log, x, l.node, c, q.Due(x), l.node, c + 1);
    } else {
      PeerDue(keys, q.s, x, now, q.Due(x));
    }
  }

  lemma PeerDue(keys: Option<Keys>, s: State, x: Side, now: nat, due: seq<Due>)
    requires CountInv(s) && ChainInv(keys, s) && s.Of(x).cursor < |s.log|
    requires DueInv(s.log, x, s.Of(x).node, s.Of(x).cursor, due)
    requires s.log[s.Of(x).cursor].author == x.Other() && IsMutation(s.log[s.Of(x).cursor].ev)
    requires var r := Received(s.Of(x).node, s.log[s.Of(x).cursor].ev, now);
      r.Ok? && Clear(due, ChangedPaths(s.log[s.Of(x).cursor].ev, r.value.1))
    ensures var (c, ev) := (s.Of(x).cursor, s.log[s.Of(x).cursor].ev);
      var r := Received(s.Of(x).node, ev, now).value;
      DueInv(s.log, x, r.0, c + 1, due + NewDue(ev, r.1, c))
  {
    AppliedOrSetAside(s, x, now);
    if Received(s.Of(x).node, s.log[s.Of(x).cursor].ev, now).value.1.AppliedIt? {
      AppliedDue(keys, s, x, now, due);
    } else {
      SetAsideDue(keys, s, x, now, due);
    }
  }

  lemma DeliverStep(keys: Option<Keys>, q: QState, x: Side, now: nat, d: nat)
    requires QInv(keys, q, d) && QNext(q, x, DeliverNext(now), d).Some?
    ensures var t := QNext(q, x, DeliverNext(now), d).value; QInv(keys, t, d) && Remaining(t, d) < Remaining(q, d)
  {
    var t := DeliverShape(q, x, now, d);
    var l, c := q.s.Of(x), q.s.Of(x).cursor;
    assert DueInv(q.s.log, x, l.node, c, q.Due(x));
    DeliveredDue(keys, q, x, now, d, t);
    CoreStep(keys, q.s, x, Deliver(now));
    assert t.s.log + [] == t.s.log;
    OtherDueStable(q, x, t, []);
    if q.s.log[c].author != x {
      NewDueIsLight(q, x, now, d);
    }
    DueIndexes(q.s.log, x, l.node, c, q.Due(x));
    DeliveredTrace(q, x, t);
    DeliveredLoad(q, x, t, d);
    DeliveredDepth(q, x, t, now, d);
    BothSides(keys, t, x, d);
  }

  lemma DueIndexes(log: seq<Record>, x: Side, n: Node, cursor: nat, due: seq<Due>)
    requires DueInv(log, x, n, cursor, due)
    ensures forall e :: e in due && e.Copy? ==> e.index < cursor
  {
    forall e | e in due && e.Copy? ensures e.index < cursor {
      assert DueHolds(log, x, n, cursor, e);
    }
  }

  lemma DeliveredDepth(q: QState, x: Side, t: QState, now: nat, d: nat)
    requires CountInv(q.s) && DepthInv(q.s, d) && Next(q.s, x, Deliver(now)) == Some(t.s) && t.s.log == q.s.log
    ensures DepthInv(t.s, d)
  {
    StepCounts(q.s, x, Deliver(now));
  }

  lemma NewDueIsLight(q: QState, x: Side, now: nat, d: nat)
    requires CountInv(q.s) && DepthInv(q.s, d) && QNext(q, x, DeliverNext(now), d).Some?
    requires q.s.log[q.s.Of(x).cursor].author != x
    ensures var t := QNext(q, x, DeliverNext(now), d).value;
      var c := q.s.Of(x).cursor;
      t.Due(x) == q.Due(x) ||
      exists e :: t.Due(x) == q.Due(x) + [e] && !e.Own? && (e.Copy? ==> e.index == c)
                  && DueWeight(e, d) < EventWeight(q.s.log[c].ev, d)
  {
    var c := q.s.Of(x).cursor;
    var r := q.s.log[c];
    var outcome := Received(q.s.Of(x).node, r.ev, now).value.1;
    var t := QNext(q, x, DeliverNext(now), d).value;
    if outcome.SetAside? {
      assert RecordCounts(IdsOf(q.s), q.s.log, c);
      assert r.ev.Write?;
      ConflictsAreShallow(q, x, now, d);
      FirstDelivery(q.s, x, now);
      CopyIsDeeper(r.ev.path, q.s.Id(x.Other()), now);
      assert t.Due(x) == q.Due(x) + [Copy(outcome.path, c)];
    } else if outcome.AppliedIt? {
      assert t.Due(x) == q.Due(x) + [Echo(ChangeOf(r.ev))];
    }
  }

  lemma QStepInv(keys: Option<Keys>, q: QState, x: Side, step: QStep, d: nat)
    requires QInv(keys, q, d) && QNext(q, x, step, d).Some?
    ensures var t := QNext(q, x, step, d).value; QInv(keys, t, d) && Remaining(t, d) < Remaining(q, d)
  {
    match step
    case LocalChange(c, files) => LocalChangeStep(keys, q, x, c, files, d);
    case ReportDue(k) =>
      if q.Due(x)[k].Echo? {
        EchoStep(keys, q, x, k, d);
      } else {
        NewsStep(keys, q, x, k, d);
      }
    case DeliverNext(now) => DeliverStep(keys, q, x, now, d);
  }

  /** Local changes are made out of the budget, and by nothing else. */
  lemma BudgetKept(q: QState, x: Side, step: QStep, d: nat)
    requires QNext(q, x, step, d).Some?
    ensures var t := QNext(q, x, step, d).value; |t.changes| + t.left == |q.changes| + q.left
  {
  }

  // ---- Whole exchanges ----

  type QRun = seq<(Side, QStep)>

  ghost function QRunFrom(q: QState, run: QRun, d: nat): Option<QState> {
    if run == [] then Some(q)
    else
      match QRunFrom(q, run[..|run| - 1], d)
      case None => None
      case Some(before) => QNext(before, run[|run| - 1].0, run[|run| - 1].1, d)
  }

  /** A session at its start, empty guards, with `left` local changes to come. */
  function QStart(ida: MachineId, idb: MachineId, fa: Files, fb: Files, keys: Option<Keys>, left: nat): QState {
    QState(Start(ida, idb, fa, fb, keys), [], [], [], [], left)
  }

  /** Nothing is due, and both nodes have consumed the stream. */
  predicate Quiet(q: QState) {
    q.dueA == [] && q.dueB == [] && q.s.a.cursor == |q.s.log| && q.s.b.cursor == |q.s.log|
  }

  lemma QStartInv(ida: MachineId, idb: MachineId, fa: Files, fb: Files, keys: Option<Keys>, left: nat, d: nat)
    requires ida != idb
    ensures QInv(keys, QStart(ida, idb, fa, fb, keys, left), d)
    ensures Remaining(QStart(ida, idb, fa, fb, keys, left), d) == left * (3 * d + 8)
  {
    StartCounts(ida, idb, fa, fb, keys);
  }

  lemma {:induction false} QRunInv(keys: Option<Keys>, q: QState, run: QRun, d: nat)
    requires QInv(keys, q, d) && QRunFrom(q, run, d).Some?
    ensures var t := QRunFrom(q, run, d).value;
      QInv(keys, t, d) && |run| + Remaining(t, d) <= Remaining(q, d) && |t.changes| + t.left == |q.changes| + q.left
  {
    if run != [] {
      var front := run[..|run| - 1];
      var (x, step) := run[|run| - 1];
      QRunInv(keys, q, front, d);
      QStepInv(keys, QRunFrom(q, front, d).value, x, step, d);
      BudgetKept(QRunFrom(q, front, d).value, x, step, d);
    }
  }

  /** No echo loop. In every exchange of `budget` local changes on paths of depth at most `d`: each
      message has one source, a local change or a conflict file; no source has two messages; every
      local change is a message or still to be reported; and the exchange has at most budget * (3d + 8)
      steps. */
  lemma NoEchoLoop(ida: MachineId, idb: MachineId, fa: Files, fb: Files, keys: Option<Keys>, budget: nat,
                   run: QRun, d: nat)
    requires ida != idb && QRunFrom(QStart(ida, idb, fa, fb, keys, budget), run, d).Some?
    ensures var q := QRunFrom(QStart(ida, idb, fa, fb, keys, budget), run, d).value;
      && |q.sources| == |q.s.log| && |q.changes| <= budget && |run| <= budget * (3 * d + 8)
      && (forall m: nat :: m < |q.s.log| ==> SourceHolds(q, m))
      && (forall m, n :: 0 <= m < n < |q.sources| ==> q.sources[m] != q.sources[n])
      && (forall k: nat :: k < |q.changes| ==> IsKnown(q, k))
      && (Quiet(q) ==> AllPublished(q))
  {
    QStartInv(ida, idb, fa, fb, keys, budget, d);
    QRunInv(keys, QStart(ida, idb, fa, fb, keys, budget), run, d);
    QuietIsPublished(QRunFrom(QStart(ida, idb, fa, fb, keys, budget), run, d).value);
  }

  /** Every local change is the source of a message. */
  predicate AllPublished(q: QState) {
    forall k: nat :: k < |q.changes| ==> Genuine(k) in q.sources
  }

  lemma QuietIsPublished(q: QState)
    requires TraceInv(q)
    ensures Quiet(q) ==> AllPublished(q)
  {
    forall k: nat | Quiet(q) && k < |q.changes| ensures Genuine(k) in q.sources {
      assert IsKnown(q, k);
    }
  }

  /** The peer's next message is one that the file system refuses. */
  predicate Refused(s: State, x: Side, now: nat)
    requires s.Of(x).cursor < |s.log|
  {
    var r := s.log[s.Of(x).cursor];
    var result := Received(s.Of(x).node, r.ev, now);
    r.author != x && result.Err? && result.error.Application?
  }

  /** A due report can always be made; with none due, the next message can be delivered, unless the
      file system refuses it. */
  lemma NodeNotStuck(keys: Option<Keys>, q: QState, x: Side, now: nat, d: nat)
    requires QInv(keys, q, d)
    ensures forall k: nat :: k < |q.Due(x)| ==> QNext(q, x, ReportDue(k), d).Some?
    ensures q.Due(x) == [] && q.s.Of(x).cursor < |q.s.log| ==>
      QNext(q, x, DeliverNext(now), d).Some? || Refused(q.s, x, now)
  {
    forall k: nat | k < |q.Due(x)| ensures QNext(q, x, ReportDue(k), d).Some? {
      if q.Due(x)[k].Echo? {
        EchoStep(keys, q, x, k, d);
      } else {
        NewsStep(keys, q, x, k, d);
      }
    }
    if q.Due(x) == [] && q.s.Of(x).cursor < |q.s.log| {
      CanDeliver(keys, q, x, now, d);
    }
  }

  /** The delivery that a node without due reports is at is refused. */
  predicate Stopped(q: QState, x: Side, now: nat) {
    q.Due(x) == [] && q.s.Of(x).cursor < |q.s.log| && Refused(q.s, x, now)
  }

  /** Until the exchange is quiet, a node that has something to report or to consume can go on. */
  lemma NotStuck(keys: Option<Keys>, q: QState, now: nat, d: nat) returns (x: Side, step: QStep)
    requires QInv(keys, q, d) && !Quiet(q)
    ensures !step.LocalChange? && (QNext(q, x, step, d).Some? || Stopped(q, x, now))
  {
    assert q.Due(A) == q.dueA && q.Due(B) == q.dueB && q.s.Of(A) == q.s.a && q.s.Of(B) == q.s.b;
    x := if q.dueA != [] then A else if q.dueB != [] then B else if q.s.a.cursor != |q.s.log| then A else B;
    step := if q.Due(x) != [] then ReportDue(0) else DeliverNext(now);
    NodeNotStuck(keys, q, x, now, d);
    assert q.s.Of(x).cursor <= |q.s.log|;
  }

  lemma OneQStep(q: QState, x: Side, step: QStep, d: nat)
    ensures QRunFrom(q, [(x, step)], d) == QNext(q, x, step, d)
  {
    assert [(x, step)][..0] == [];
    assert QRunFrom(q, [], d) == Some(q);
  }

  lemma {:induction false} QRunThen(q: QState, x: Side, step: QStep, t: QState, run: QRun, d: nat)
    requires QRunFrom(q, [(x, step)], d) == Some(t)
    ensures QRunFrom(q, [(x, step)] + run, d) == QRunFrom(t, run, d)
  {
    var whole := [(x, step)] + run;
    if run == [] {
      assert whole == [(x, step)];
    } else {
      assert whole[..|whole| - 1] == [(x, step)] + run[..|run| - 1] && whole[|whole| - 1] == run[|run| - 1];
      QRunThen(q, x, step, t, run[..|run| - 1], d);
    }
  }

  /** Some run leads from one state to the other without the user. */
  ghost predicate RunsOnTo(q: QState, t: QState, d: nat) {
    exists run: QRun :: QRunFrom(q, run, d) == Some(t) && Unattended(run)
  }

  predicate Unattended(run: QRun) {
    forall i :: 0 <= i < |run| ==> !run[i].1.LocalChange?
  }

  lemma RunsOnBy(q: QState, x: Side, step: QStep, next: QState, t: QState, d: nat)
    requires !step.LocalChange? && QNext(q, x, step, d) == Some(next) && RunsOnTo(next, t, d)
    ensures RunsOnTo(q, t, d)
  {
    var run: QRun :| QRunFrom(next, run, d) == Some(t) && Unattended(run);
    OneQStep(q, x, step, d);
    QRunThen(q, x, step, next, run, d);
    assert Unattended([(x, step)] + run);
  }

  /** All reports made and the stream consumed on both nodes, or at a delivery that is refused. */
  ghost predicate AtRest(t: QState, now: nat) {
    Quiet(t) || exists x: Side :: Stopped(t, x, now)
  }

  /** So, once the user stops, every exchange runs on to quiet: all reports made, the stream consumed on
      both nodes; or to a delivery that the file system refuses. */
  lemma {:induction false} Settles(keys: Option<Keys>, q: QState, now: nat, d: nat)
    requires QInv(keys, q, d)
    ensures exists t: QState :: RunsOnTo(q, t, d) && AtRest(t, now)
    decreases Remaining(q, d)
  {
    if AtRest(q, now) {
      assert QRunFrom(q, [], d) == Some(q) && Unattended([]);
      assert RunsOnTo(q, q, d);
    } else {
      var x, step := NotStuck(keys, q, now, d);
      var next := QNext(q, x, step, d).value;
      QStepInv(keys, q, x, step, d);
      Settles(keys, next, now, d);
      var t: QState :| RunsOnTo(next, t, d) && AtRest(t, now);
      RunsOnBy(q, x, step, next, t, d);
    }
  }

  lemma CanDeliver(keys: Option<Keys>, q: QState, x: Side, now: nat, d: nat)
    requires CountInv(q.s) && ChainInv(keys, q.s) && TraceInv(q)
    requires q.Due(x) == [] && q.s.Of(x).cursor < |q.s.log|
    ensures QNext(q, x, DeliverNext(now), d).Some? || Refused(q.s, x, now)
  {
    var r := q.s.log[q.s.Of(x).cursor];
    assert SourceHolds(q, q.s.Of(x).cursor);
    if r.author != x {
      RefusedByFiles(keys, q.s, x, now);
    }
  }

  /** When a mutation cannot be received, it is the file system that refused. */
  lemma RefusedByFiles(keys: Option<Keys>, s: State, x: Side, now: nat)
    requires CountInv(s) && ChainInv(keys, s) && s.Of(x).cursor < |s.log|
    requires s.log[s.Of(x).cursor].author != x && IsMutation(s.log[s.Of(x).cursor].ev)
    ensures var r := Received(s.Of(x).node, s.log[s.Of(x).cursor].ev, now); r.Err? ==> r.error.Application?
  {
    if s.log[s.Of(x).cursor].ev.Write? {
      NeverFailsToDecrypt(keys, s, x, now);
    }
  }
}
