/** The run that replaces a published edit: a conflict copy takes the name of a file the user has
    edited and published, within the second in which that name was given. */
module PublishedCopy {
  import opened Outcomes
  import opened Paths
  import opened Version
  import opened Events
  import opened Session
  import opened Delivery
  import opened NothingLost
  import opened SameSecond

  /** Both write the path; A sets B's write aside, its user edits the copy, and that is published; B writes
      the path again; A sets that aside in the same second. */
  function Replacing(k: Clash): Run {
    WriteSteps(k, A, false, k.c0) + WriteSteps(k, B, false, k.c9)
    + [(A, Deliver(5))] + [(A, Deliver(5))] + WriteSteps(k, A, true, k.c1) + WriteSteps(k, B, false, k.c2)
    + [(A, Deliver(5))] + [(A, Deliver(5))]
  }

  /** Then A reports the copy, and B consumes everything. */
  function Spreading(k: Clash): Run {
    Replacing(k) + [(A, Report(Modified(k.Q())))]
    + [(B, Deliver(9))] + [(B, Deliver(9))] + [(B, Deliver(9))] + [(B, Deliver(9))] + [(B, Deliver(9))]
  }

  /** The stream after the first part. */
  function Stream(k: Clash, va: Vector, vb: Vector, v2: Vector): seq<Record> {
    [WriteBy(A, k.P(), k.c0, va, 0), WriteBy(B, k.P(), k.c9, vb, 0)]
    + [WriteBy(A, k.Q(), k.c1, va, 2)] + [WriteBy(B, k.P(), k.c2, v2, 0)]
  }

  lemma Compares(va: Vector, vb: Vector, v2: Vector)
    requires va == Bumped(map[], "a") && vb == Bumped(map[], "b") && v2 == Bumped(vb, "b")
    ensures Causal(vb, va) == Concurrent && Causal(v2, Merged(va, vb)) == Concurrent
    ensures Causal(va, v2) == Concurrent && Causal(va, map[]) == AAfterB && Causal(Bumped(va, "a"), va) == AAfterB
  {
    assert "a"[0] != "b"[0];
    Compared(vb, va, "b", "a");
    Compared(v2, Merged(va, vb), "b", "a");
    Compared(va, v2, "a", "b");
    Compared(va, map[], "a", "a");
    Compared(Bumped(va, "a"), va, "a", "a");
  }

  /** A's user edits the copy and B's the path. */
  lemma BothEdit(k: Clash, tr: Trace, a: View, b: View) returns (u: Trace)
    requires Traced(tr) && Sees(k, tr.End().a, "a", a) && tr.End().a.node.guard == EMPTY_GUARD
    requires Sees(k, tr.End().b, "b", b) && NeverEdits(tr.End().b, k.Q())
    ensures Traced(u) && u.states[0] == tr.states[0]
    ensures u.run == tr.run + WriteSteps(k, A, true, k.c1) + WriteSteps(k, B, false, k.c2)
    ensures u.End().log == tr.End().log
      + [WriteBy(A, k.Q(), k.c1, Bumped(a.vq, "a"), a.cursor)] + [WriteBy(B, k.P(), k.c2, Bumped(b.vp, "b"), b.cursor)]
    ensures Sees(k, u.End().a, "a", a.(q := Some(k.c1), vq := Bumped(a.vq, "a")))
    ensures u.End().a.node.guard == EMPTY_GUARD && k.Q() !in u.End().a.edited
    ensures u.End().a.node.files == tr.End().a.node.files[k.Q() := k.c1]
    ensures Sees(k, u.End().b, "b", b.(p := Some(k.c2), vp := Bumped(b.vp, "b"))) && NeverEdits(u.End().b, k.Q())
    ensures u.End().b.node.files == tr.End().b.node.files[k.P() := k.c2]
  {
    var t := Writes(k, tr, A, a, true, k.c1);
    u := Writes(k, t, B, b, false, k.c2);
  }

  /** What the first part leaves: A's edit of the copy is published, and its file holds B's write. */
  predicate Replaced(k: Clash, s: State, va: Vector, vb: Vector, v2: Vector) {
    && s.log == Stream(k, va, vb, v2)
    && Sees(k, s.a, "a", View(4, Some(k.c0), Some(k.c2), Merged(Merged(va, vb), v2), va, Asides(k)))
    && s.a.node.files == map[][k.P() := k.c0][k.Q() := k.c9][k.Q() := k.c1][k.Q() := k.c2]
    && k.Q() !in s.a.edited && s.a.node.guard == EMPTY_GUARD
    && Sees(k, s.b, "b", View(0, Some(k.c2), None, v2, map[], map[]))
    && s.b.node.files == map[][k.P() := k.c9][k.P() := k.c2]
  }

  function Asides(k: Clash): map<nat, Path> {
    map[][1 := k.Q()][3 := k.Q()]
  }

  lemma Starts(k: Clash, va: Vector, vb: Vector) returns (u: Trace)
    requires va == Bumped(map[], "a") && vb == Bumped(map[], "b") && Causal(vb, va) == Concurrent
    ensures Traced(u) && u.states[0] == Start("a", "b", map[], map[], None)
    ensures u.run
      == WriteSteps(k, A, false, k.c0) + WriteSteps(k, B, false, k.c9) + [(A, Deliver(5))] + [(A, Deliver(5))]
    ensures u.End().log == [WriteBy(A, k.P(), k.c0, va, 0), WriteBy(B, k.P(), k.c9, vb, 0)]
    ensures Sees(k, u.End().a, "a", View(2, Some(k.c0), Some(k.c9), Merged(va, vb), map[], map[][1 := k.Q()]))
    ensures u.End().a.node.guard == EMPTY_GUARD && u.End().a.node.files == map[][k.P() := k.c0][k.Q() := k.c9]
    ensures Sees(k, u.End().b, "b", View(0, Some(k.c9), None, vb, map[], map[])) && NeverEdits(u.End().b, k.Q())
    ensures u.End().b.node.files == map[][k.P() := k.c9]
  {
    var t := BothWrite(k, k.c9, va, vb);
    u := SetsAside(k, t, View(0, Some(k.c0), None, va, map[], map[]), k.c9, vb);
  }

  lemma Replaces(k: Clash, va: Vector, vb: Vector, v2: Vector) returns (u: Trace)
    requires va == Bumped(map[], "a") && vb == Bumped(map[], "b") && v2 == Bumped(vb, "b")
    ensures Traced(u) && u.run == Replacing(k) && u.states[0] == Start("a", "b", map[], map[], None)
    ensures Replaced(k, u.End(), va, vb, v2) && NeverEdits(u.End().b, k.Q())
  {
    Compares(va, vb, v2);
    var t1 := Starts(k, va, vb);
    var a := View(2, Some(k.c0), Some(k.c9), Merged(va, vb), map[], map[][1 := k.Q()]);
    var t2 := BothEdit(k, t1, a, View(0, Some(k.c9), None, vb, map[], map[]));
    u := SetsAside(k, t2, a.(q := Some(k.c1), vq := va), k.c2, v2);
  }

  lemma EditIsNowhereOnA(k: Clash, s: State, va: Vector, vb: Vector, v2: Vector)
    requires Replaced(k, s, va, vb, v2) && k.c1 != k.c2
    ensures |s.log| == 4 && IsWriteAt(s.log, 2) && PlainOf(s.log[2].ev) == k.c1 && !Accounted(s, A, 2)
  {
    Different(k);
    assert forall j: nat :: !Supersedes(s.log, 2, j);
  }

  /** What B will consume, once A has reported the copy. */
  predicate ToCome(k: Clash, log: seq<Record>, va: Vector) {
    && |log| == 5 && log[0] == WriteBy(A, k.P(), k.c0, va, 0) && log[1].author == B
    && log[2] == WriteBy(A, k.Q(), k.c1, va, 2) && log[3].author == B
    && log[4] == WriteBy(A, k.Q(), k.c2, Bumped(va, "a"), 4)
  }

  lemma StreamToCome(k: Clash, va: Vector, vb: Vector, v2: Vector)
    ensures ToCome(k, Stream(k, va, vb, v2) + [WriteBy(A, k.Q(), k.c2, Bumped(va, "a"), 4)], va)
  {
  }

  /** A reports the copy as its own. */
  lemma Reported(k: Clash, tr: Trace, va: Vector, vb: Vector, v2: Vector) returns (u: Trace)
    requires Traced(tr) && Replaced(k, tr.End(), va, vb, v2)
    ensures Traced(u) && u.states[0] == tr.states[0] && u.run == tr.run + [(A, Report(Modified(k.Q())))]
    ensures ToCome(k, u.End().log, va)
    ensures u.End().a.node.files == tr.End().a.node.files && u.End().b == tr.End().b
  {
    u := Reports(k, tr, A, View(4, Some(k.c0), Some(k.c2), Merged(Merged(va, vb), v2), va, Asides(k)), true, k.c2);
    StreamToCome(k, va, vb, v2);
  }

  /** B sets A's first write aside and applies the edit of the copy. */
  lemma EditArrives(k: Clash, tr: Trace, b: View, va: Vector) returns (u: Trace)
    requires Traced(tr) && Sees(k, tr.End().b, "b", b) && ToCome(k, tr.End().log, va)
    requires b.cursor == 0 && b.q == None && b.vq == map[] && b.aside == map[]
    requires Causal(va, b.vp) == Concurrent && Causal(va, map[]) == AAfterB
    ensures Traced(u) && u.states[0] == tr.states[0] && u.End().log == tr.End().log && u.End().a == tr.End().a
    ensures u.run == tr.run + [(B, Deliver(9))] + [(B, Deliver(9))] + [(B, Deliver(9))]
    ensures Sees(k, u.End().b, "b", View(3, b.p, Some(k.c1), Merged(b.vp, va), va, map[0 := W(k)]))
    ensures u.End().b.node.files == tr.End().b.node.files[W(k) := k.c0][k.Q() := k.c1]
    ensures NeverEdits(tr.End().b, k.Q()) ==> NeverEdits(u.End().b, k.Q())
  {
    OtherName(k);
    var t1 := Conflicts(k, tr, B, b, k.c0, va, 9);
    var b1 := b.(cursor := 1, vp := Merged(b.vp, va), aside := map[0 := W(k)]);
    var t2 := Skips(k, t1, B, b1, 9);
    u := Applies(k, t2, B, b1.(cursor := 2), k.c1, va, 9);
  }

  /** B applies the copy over it. */
  lemma CopyArrives(k: Clash, tr: Trace, b: View, va: Vector) returns (u: Trace)
    requires Traced(tr) && Sees(k, tr.End().b, "b", b) && b.cursor == 3 && ToCome(k, tr.End().log, va)
    requires b.vq == va && Causal(Bumped(va, "a"), va) == AAfterB
    ensures Traced(u) && u.states[0] == tr.states[0] && u.run == tr.run + [(B, Deliver(9))] + [(B, Deliver(9))]
    ensures u.End().a == tr.End().a && u.End().b.cursor == 5
    ensures u.End().b.node.files == tr.End().b.node.files[k.Q() := k.c2]
    ensures NeverEdits(tr.End().b, k.Q()) ==> NeverEdits(u.End().b, k.Q())
  {
    var t1 := Skips(k, tr, B, b, 9);
    u := Applies(k, t1, B, b.(cursor := 4), k.c2, Bumped(va, "a"), 9);
  }

  lemma SpreadsTo(k: Clash, tr: Trace, va: Vector, vb: Vector, v2: Vector) returns (u: Trace)
    requires Traced(tr) && Replaced(k, tr.End(), va, vb, v2) && NeverEdits(tr.End().b, k.Q())
    requires va == Bumped(map[], "a") && Causal(va, v2) == Concurrent && Causal(va, map[]) == AAfterB
    ensures Traced(u) && u.states[0] == tr.states[0] && NeverEdits(u.End().b, k.Q())
    ensures u.run == tr.run + [(A, Report(Modified(k.Q())))] + [(B, Deliver(9))] + [(B, Deliver(9))] + [(B, Deliver(9))]
    ensures ToCome(k, u.End().log, va)
    ensures u.End().a.node.files == tr.End().a.node.files
    ensures Sees(k, u.End().b, "b", View(3, Some(k.c2), Some(k.c1), Merged(v2, va), va, map[0 := W(k)]))
    ensures u.End().b.node.files == tr.End().b.node.files[W(k) := k.c0][k.Q() := k.c1]
  {
    var t := Reported(k, tr, va, vb, v2);
    u := EditArrives(k, t, View(0, Some(k.c2), None, v2, map[], map[]), va);
  }

  lemma Spreads(k: Clash, tr: Trace, va: Vector, vb: Vector, v2: Vector) returns (u: Trace)
    requires Traced(tr) && Replaced(k, tr.End(), va, vb, v2) && NeverEdits(tr.End().b, k.Q()) && tr.run == Replacing(k)
    requires va == Bumped(map[], "a") && vb == Bumped(map[], "b") && v2 == Bumped(vb, "b")
    ensures Traced(u) && u.states[0] == tr.states[0] && u.run == Spreading(k)
    ensures u.End().a.node.files == tr.End().a.node.files
    ensures u.End().b.node.files == tr.End().b.node.files[W(k) := k.c0][k.Q() := k.c1][k.Q() := k.c2]
    ensures u.End().b.cursor == 5 && NeverEdits(u.End().b, k.Q())
  {
    Compares(va, vb, v2);
    var t := SpreadsTo(k, tr, va, vb, v2);
    u := CopyArrives(k, t, View(3, Some(k.c2), Some(k.c1), Merged(v2, va), va, map[0 := W(k)]), va);
  }

  /** The files of both nodes in the end. */
  lemma EditIsNowhere(k: Clash)
    requires k.c1 != k.c0 && k.c1 != k.c2
    ensures k.c1 !in map[][k.P() := k.c0][k.Q() := k.c9][k.Q() := k.c1][k.Q() := k.c2].Values
    ensures k.c1 !in map[][k.P() := k.c9][k.P() := k.c2][W(k) := k.c0][k.Q() := k.c1][k.Q() := k.c2].Values
  {
    Different(k);
  }

  /** After the first part, A's published edit is nowhere on A. And it spreads: in the end B has consumed
      everything, the edit is in no file of either node, and no user has touched the copy since. */
  lemma PublishedEditIsReplaced(k: Clash)
    requires k.c1 != k.c0 && k.c1 != k.c2
    ensures var start := Start("a", "b", map[], map[], None);
      var s, t := RunFrom(start, Replacing(k)), RunFrom(start, Spreading(k));
      && s.Some? && |s.value.log| == 4 && IsWriteAt(s.value.log, 2) && PlainOf(s.value.log[2].ev) == k.c1
      && k.Q() !in s.value.a.edited && !Accounted(s.value, A, 2)
      && t.Some? && t.value.b.cursor == 5 && NeverEdits(t.value.b, k.Q())
      && k.c1 !in t.value.a.node.files.Values && k.c1 !in t.value.b.node.files.Values
  {
    var va, vb := Bumped(map[], "a"), Bumped(map[], "b");
    var v2 := Bumped(vb, "b");
    var t := Replaces(k, va, vb, v2);
    TraceIsRun(t);
    EditIsNowhereOnA(k, t.End(), va, vb, v2);
    var u := Spreads(k, t, va, vb, v2);
    TraceIsRun(u);
    EditIsNowhere(k);
  }
}
