/** Version vectors capture causality, for any number of nodes, any deliveries and any paths. */
module Causality {
  import opened Paths
  import opened Version

  /** A published write. `seen` records which earlier writes of the path its author had
      published or received; the code does not keep it, the theorem is about it. */
  datatype Write = Write(author: MachineId, path: Path, version: Vector, seen: set<nat>)

  /** Every node's version store and the writes it has published or received. */
  datatype State = State(stores: map<MachineId, Store>, got: map<MachineId, set<nat>>, log: seq<Write>)

  datatype Step = Publish(node: MachineId, path: Path) | Deliver(node: MachineId, index: nat)

  function StoreOf(s: State, n: MachineId): Store {
    if n in s.stores then s.stores[n] else map[]
  }

  function Got(s: State, n: MachineId): set<nat> {
    if n in s.got then s.got[n] else {}
  }

  /** The writes among `got` that are to path `p`. */
  function On(log: seq<Write>, got: set<nat>, p: Path): set<nat> {
    set i | i in got && i < |log| && log[i].path == p
  }

  /** One publishOne, or one applyEvent of any published write: late, early, repeated, own. */
  function Next(s: State, step: Step): State {
    match step
    case Publish(n, p) =>
      var v := Bumped(At(StoreOf(s, n), p), n);
      State(s.stores[n := StoreOf(s, n)[p := v]],
            s.got[n := Got(s, n) + {|s.log|}],
            s.log + [Write(n, p, v, On(s.log, Got(s, n), p))])
    case Deliver(n, i) =>
      if i >= |s.log| || s.log[i].author == n then s
      else
        State(s.stores[n := StoreAfter(StoreOf(s, n), s.log[i].path, s.log[i].version)],
              s.got[n := Got(s, n) + {i}], s.log)
  }

  function Run(steps: seq<Step>): State {
    if steps == [] then State(map[], map[], [])
    else Next(Run(steps[..|steps| - 1]), steps[|steps| - 1])
  }

  /** Write `i` is in the transitive causal history of write `j` of the same path: the author
      of `j` had it, or had some write in whose history it is. */
  ghost predicate Causes(log: seq<Write>, i: nat, j: nat)
    requires j < |log|
    decreases j
  {
    i in log[j].seen || exists k :: k in log[j].seen && k < j && Causes(log, i, k)
  }

  /** Write `i` is one of `had`, or in the history of one of them. */
  ghost predicate Known(log: seq<Write>, had: set<nat>, i: nat) {
    i in had || exists k :: k in had && k < |log| && Causes(log, i, k)
  }

  function Own(w: Write): nat {
    Count(w.version, w.author)
  }

  ghost predicate HistoryOrdered(log: seq<Write>) {
    forall j: nat, i: nat {:trigger i in log[j].seen} :: j < |log| && i in log[j].seen ==>
      i < j && log[i].path == log[j].path && Leq(log[i].version, log[j].version)
  }

  ghost predicate OwnIncreases(log: seq<Write>) {
    && (forall i :: 0 <= i < |log| ==> Own(log[i]) > 0)
    && (forall i: nat, j: nat {:trigger SameWriter(log, i, j)} :: SameWriter(log, i, j) ==>
          i in log[j].seen && Own(log[i]) < Own(log[j]))
  }

  /** Write `i` is an earlier one, by the same author to the same path. */
  predicate SameWriter(log: seq<Write>, i: nat, j: nat) {
    i < j < |log| && log[i].author == log[j].author && log[i].path == log[j].path
  }

  /** Write `i` is the one of `m` on path `p` that carries own count `c`. */
  predicate IsNth(log: seq<Write>, p: Path, m: MachineId, c: nat, i: nat) {
    i < |log| && log[i].path == p && log[i].author == m && Own(log[i]) == c
  }

  /** Every non-zero component of `v` counts up to a write that is in `had` or in its history. */
  ghost predicate Backed(log: seq<Write>, v: Vector, p: Path, had: set<nat>) {
    forall m :: Count(v, m) > 0 ==> HasNth(log, p, m, Count(v, m), had)
  }

  ghost predicate HasNth(log: seq<Write>, p: Path, m: MachineId, c: nat, had: set<nat>) {
    exists i: nat :: IsNth(log, p, m, c, i) && Known(log, had, i)
  }

  ghost predicate LogInv(log: seq<Write>) {
    && HistoryOrdered(log)
    && OwnIncreases(log)
    && (forall j :: 0 <= j < |log| ==> Backed(log, log[j].version, log[j].path, log[j].seen + {j}))
  }

  /** Node `n`, storing `store` and having published or received `got`. */
  ghost predicate NodeInv(log: seq<Write>, n: MachineId, store: Store, got: set<nat>) {
    && (forall i: nat :: i in got ==> i < |log| && Leq(log[i].version, At(store, log[i].path)))
    && (forall i: nat :: i < |log| && log[i].author == n ==> i in got)
    && (forall p :: Backed(log, At(store, p), p, On(log, got, p)))
  }

  ghost predicate Inv(s: State) {
    LogInv(s.log) && forall n :: NodeInv(s.log, n, StoreOf(s, n), Got(s, n))
  }

  // ---- Histories ----

  lemma {:induction false} CausesOrdered(log: seq<Write>, i: nat, j: nat)
    requires HistoryOrdered(log) && j < |log| && Causes(log, i, j)
    ensures i < j && log[i].path == log[j].path && Leq(log[i].version, log[j].version)
    decreases j
  {
    if i !in log[j].seen {
      var k :| k in log[j].seen && k < j && Causes(log, i, k);
      CausesOrdered(log, i, k);
      LeqTransitive(log[i].version, log[k].version, log[j].version);
    }
  }

  lemma LeqTransitive(a: Vector, b: Vector, c: Vector)
    requires Leq(a, b) && Leq(b, c)
    ensures Leq(a, c)
  {
    LeqCounts(b, c);
  }

  lemma {:induction false} CausesTransitive(log: seq<Write>, i: nat, k: nat, j: nat)
    requires HistoryOrdered(log) && k < |log| && j < |log| && Causes(log, i, k) && Causes(log, k, j)
    ensures Causes(log, i, j)
    decreases j
  {
    if k !in log[j].seen {
      var m :| m in log[j].seen && m < j && Causes(log, k, m);
      CausesTransitive(log, i, k, m);
    }
  }

  lemma {:induction false} CausesStable(log: seq<Write>, w: Write, i: nat, j: nat)
    requires j < |log|
    ensures Causes(log + [w], i, j) <==> Causes(log, i, j)
    decreases j
  {
    assert (log + [w])[j] == log[j];
    forall k | k in log[j].seen && k < j ensures Causes(log + [w], i, k) <==> Causes(log, i, k) {
      CausesStable(log, w, i, k);
    }
  }

  lemma KnownStable(log: seq<Write>, w: Write, had: set<nat>, i: nat)
    requires Known(log, had, i)
    ensures Known(log + [w], had, i)
  {
    if i !in had {
      var k :| k in had && k < |log| && Causes(log, i, k);
      CausesStable(log, w, i, k);
    }
  }

  lemma BackedGrows(log: seq<Write>, more: seq<Write>, v: Vector, p: Path, had: set<nat>, had': set<nat>)
    requires Backed(log, v, p, had) && had <= had'
    requires |more| <= 1
    ensures Backed(log + more, v, p, had')
  {
    forall m | Count(v, m) > 0
      ensures HasNth(log + more, p, m, Count(v, m), had')
    {
      var i: nat :| IsNth(log, p, m, Count(v, m), i) && Known(log, had, i);
      assert Known(log, had', i);
      if more == [] {
        assert log + more == log;
      } else {
        assert more == [more[0]];
        KnownStable(log, more[0], had', i);
      }
      assert IsNth(log + more, p, m, Count(v, m), i);
    }
  }

  // ---- The invariant over every run ----

  lemma {:induction false} RunInv(steps: seq<Step>)
    ensures Inv(Run(steps))
  {
    if steps != [] {
      var front := steps[..|steps| - 1];
      RunInv(front);
      match steps[|steps| - 1]
      case Publish(n, p) => PublishInv(Run(front), n, p);
      case Deliver(n, i) =>
        var s := Run(front);
        if i < |s.log| && s.log[i].author != n {
          DeliverInv(s, n, i);
        }
    }
  }

  lemma DeliverInv(s: State, n: MachineId, i: nat)
    requires Inv(s) && i < |s.log| && s.log[i].author != n
    ensures Inv(Next(s, Deliver(n, i)))
  {
    var t := Next(s, Deliver(n, i));
    assert NodeInv(s.log, n, StoreOf(s, n), Got(s, n));
    DeliverNode(s.log, n, StoreOf(s, n), Got(s, n), i);
    forall m ensures NodeInv(t.log, m, StoreOf(t, m), Got(t, m)) {
      OthersSame(s, Deliver(n, i), n, m);
      assert m != n ==> NodeInv(s.log, m, StoreOf(s, m), Got(s, m));
    }
  }

  /** A step touches what one node stores and has, and no other. */
  lemma OthersSame(s: State, step: Step, n: MachineId, m: MachineId)
    requires n == step.node
    ensures m != n ==> StoreOf(Next(s, step), m) == StoreOf(s, m) && Got(Next(s, step), m) == Got(s, m)
  {
  }

  lemma DeliverNode(log: seq<Write>, n: MachineId, store: Store, got: set<nat>, i: nat)
    requires HistoryOrdered(log) && NodeInv(log, n, store, got) && i < |log|
    requires Backed(log, log[i].version, log[i].path, log[i].seen + {i})
    ensures NodeInv(log, n, StoreAfter(store, log[i].path, log[i].version), got + {i})
  {
    var w := log[i];
    var after := StoreAfter(store, w.path, w.version);
    var local, stored := At(store, w.path), Adopted(At(store, w.path), w.version);
    AdoptedIsJoin(local, w.version);
    assert At(after, w.path) == stored;
    assert Leq(local, stored) && Leq(w.version, stored) by {
      JoinDominates(stored, local, w.version);
    }
    forall j: nat | j in got + {i} ensures Leq(log[j].version, At(after, log[j].path)) {
      if j != i && log[j].path == w.path {
        LeqTransitive(log[j].version, local, stored);
      }
    }
    forall p ensures Backed(log, At(after, p), p, On(log, got + {i}, p)) {
      if p == w.path {
        DeliverBacked(log, store, got, i, stored);
      } else {
        assert On(log, got + {i}, p) == On(log, got, p);
      }
    }
  }

  lemma DeliverBacked(log: seq<Write>, store: Store, got: set<nat>, i: nat, stored: Vector)
    requires HistoryOrdered(log) && i < |log| && IsJoin(stored, At(store, log[i].path), log[i].version)
    requires Backed(log, At(store, log[i].path), log[i].path, On(log, got, log[i].path))
    requires Backed(log, log[i].version, log[i].path, log[i].seen + {i})
    ensures Backed(log, stored, log[i].path, On(log, got + {i}, log[i].path))
  {
    var p := log[i].path;
    assert On(log, got + {i}, p) == On(log, got, p) + {i};
    BackedGrows(log, [], At(store, p), p, On(log, got, p), On(log, got + {i}, p));
    assert log + [] == log;
    BackedJoin(log, i, At(store, p), stored, On(log, got + {i}, p));
  }

  lemma JoinDominates(v: Vector, a: Vector, b: Vector)
    requires IsJoin(v, a, b)
    ensures Leq(a, v) && Leq(b, v)
  {
    LeqCounts(a, v);
    LeqCounts(b, v);
  }

  lemma BackedJoin(log: seq<Write>, i: nat, local: Vector, stored: Vector, had: set<nat>)
    requires HistoryOrdered(log) && i < |log| && i in had
    requires Backed(log, local, log[i].path, had)
    requires Backed(log, log[i].version, log[i].path, log[i].seen + {i})
    requires IsJoin(stored, local, log[i].version)
    ensures Backed(log, stored, log[i].path, had)
  {
    var w := log[i];
    forall m | Count(stored, m) > 0
      ensures HasNth(log, w.path, m, Count(stored, m), had)
    {
      assert Count(stored, m) == Max(Count(local, m), Count(w.version, m));
      if Count(stored, m) != Count(local, m) {
        var j: nat :| IsNth(log, w.path, m, Count(w.version, m), j) && Known(log, w.seen + {i}, j);
        if j !in w.seen + {i} {
          var k :| k in w.seen + {i} && k < |log| && Causes(log, j, k);
          assert k != i ==> k in w.seen;
          assert Causes(log, j, i);
        }
        assert Known(log, had, j);
      }
    }
  }

  lemma PublishInv(s: State, n: MachineId, p: Path)
    requires Inv(s)
    ensures Inv(Next(s, Publish(n, p)))
  {
    var t := Next(s, Publish(n, p));
    var w := t.log[|s.log|];
    assert NodeInv(s.log, n, StoreOf(s, n), Got(s, n));
    PublishLog(s.log, n, StoreOf(s, n), Got(s, n), w);
    forall m ensures NodeInv(t.log, m, StoreOf(t, m), Got(t, m)) {
      assert NodeInv(s.log, m, StoreOf(s, m), Got(s, m));
      OthersSame(s, Publish(n, p), n, m);
      if m == n {
        PublishNode(s.log, n, StoreOf(s, n), Got(s, n), w);
      } else {
        NodeInvGrows(s.log, w, m, StoreOf(s, m), Got(s, m));
      }
    }
  }

  /** `w` is the write that `n` publishes to `w.path` from `store` and `got`. */
  predicate IsNext(log: seq<Write>, n: MachineId, store: Store, got: set<nat>, w: Write) {
    w == Write(n, w.path, Bumped(At(store, w.path), n), On(log, got, w.path))
  }

  lemma BumpDominates(v: Vector, id: MachineId)
    ensures Leq(v, Bumped(v, id)) && Leq(Bumped(v, id), Bumped(v, id))
  {
  }

  lemma PublishLog(log: seq<Write>, n: MachineId, store: Store, got: set<nat>, w: Write)
    requires LogInv(log) && NodeInv(log, n, store, got) && IsNext(log, n, store, got, w)
    ensures LogInv(log + [w])
  {
    PublishHistory(log, n, store, got, w);
    PublishOwn(log, n, store, got, w);
    PublishBacked(log, n, store, got, w);
    WritesBacked(log, w);
  }

  lemma WritesBacked(log: seq<Write>, w: Write)
    requires forall j :: 0 <= j < |log| ==> Backed(log, log[j].version, log[j].path, log[j].seen + {j})
    requires Backed(log + [w], w.version, w.path, w.seen + {|log|})
    ensures var more := log + [w];
      forall j :: 0 <= j < |more| ==> Backed(more, more[j].version, more[j].path, more[j].seen + {j})
  {
    var more := log + [w];
    forall j | 0 <= j < |more| ensures Backed(more, more[j].version, more[j].path, more[j].seen + {j}) {
      if j < |log| {
        BackedGrows(log, [w], log[j].version, log[j].path, log[j].seen + {j}, log[j].seen + {j});
      }
    }
  }

  lemma PublishHistory(log: seq<Write>, n: MachineId, store: Store, got: set<nat>, w: Write)
    requires HistoryOrdered(log) && NodeInv(log, n, store, got) && IsNext(log, n, store, got, w)
    ensures HistoryOrdered(log + [w])
  {
    var log' := log + [w];
    BumpDominates(At(store, w.path), n);
    forall j: nat, i: nat | j < |log'| && i in log'[j].seen
      ensures i < j && log'[i].path == log'[j].path && Leq(log'[i].version, log'[j].version)
    {
      if j == |log| {
        LeqTransitive(log[i].version, At(store, w.path), w.version);
      } else {
        assert i in log[j].seen;
      }
    }
  }

  lemma PublishOwn(log: seq<Write>, n: MachineId, store: Store, got: set<nat>, w: Write)
    requires OwnIncreases(log) && NodeInv(log, n, store, got) && IsNext(log, n, store, got, w)
    ensures OwnIncreases(log + [w])
  {
    var log' := log + [w];
    forall i: nat, j: nat | SameWriter(log', i, j) ensures i in log'[j].seen && Own(log'[i]) < Own(log'[j]) {
      if j == |log| {
        LeqCounts(log[i].version, At(store, w.path));
      } else {
        assert SameWriter(log, i, j);
      }
    }
  }

  lemma PublishBacked(log: seq<Write>, n: MachineId, store: Store, got: set<nat>, w: Write)
    requires NodeInv(log, n, store, got) && IsNext(log, n, store, got, w)
    ensures Backed(log + [w], w.version, w.path, w.seen + {|log|})
  {
    var log' := log + [w];
    var local := At(store, w.path);
    BackedGrows(log, [w], local, w.path, w.seen, w.seen + {|log|});
    forall m | Count(w.version, m) > 0
      ensures HasNth(log', w.path, m, Count(w.version, m), w.seen + {|log|})
    {
      if m == n {
        assert IsNth(log', w.path, n, Count(w.version, n), |log|);
      } else {
        assert Count(local, m) == Count(w.version, m);
      }
    }
  }

  lemma NodeInvGrows(log: seq<Write>, w: Write, m: MachineId, store: Store, got: set<nat>)
    requires NodeInv(log, m, store, got) && w.author != m
    ensures NodeInv(log + [w], m, store, got)
  {
    forall p ensures Backed(log + [w], At(store, p), p, On(log + [w], got, p)) {
      assert On(log, got, p) <= On(log + [w], got, p);
      BackedGrows(log, [w], At(store, p), p, On(log, got, p), On(log + [w], got, p));
    }
  }

  lemma PublishNode(log: seq<Write>, n: MachineId, store: Store, got: set<nat>, w: Write)
    requires LogInv(log) && NodeInv(log, n, store, got) && IsNext(log, n, store, got, w)
    ensures NodeInv(log + [w], n, store[w.path := w.version], got + {|log|})
  {
    var log', store', got' := log + [w], store[w.path := w.version], got + {|log|};
    BumpDominates(At(store, w.path), n);
    forall i: nat | i in got' ensures i < |log'| && Leq(log'[i].version, At(store', log'[i].path)) {
      if i < |log| && log[i].path == w.path {
        LeqTransitive(log[i].version, At(store, w.path), w.version);
      }
    }
    forall p ensures Backed(log', At(store', p), p, On(log', got', p)) {
      StillBacked(log, n, store, got, w, p);
    }
  }

  lemma StillBacked(log: seq<Write>, n: MachineId, store: Store, got: set<nat>, w: Write, p: Path)
    requires LogInv(log) && NodeInv(log, n, store, got) && IsNext(log, n, store, got, w)
    ensures Backed(log + [w], At(store[w.path := w.version], p), p, On(log + [w], got + {|log|}, p))
  {
    if p == w.path {
      PublishBacked(log, n, store, got, w);
      assert On(log + [w], got + {|log|}, p) == w.seen + {|log|};
    } else {
      BackedGrows(log, [w], At(store, p), p, On(log, got, p), On(log + [w], got + {|log|}, p));
    }
  }

  // ---- The theorem ----

  lemma LeqMeansHistory(log: seq<Write>, i: nat, j: nat)
    requires LogInv(log) && i < |log| && j < |log| && i != j && log[i].path == log[j].path
    ensures Leq(log[i].version, log[j].version) <==> Causes(log, i, j)
  {
    if Leq(log[i].version, log[j].version) {
      var n := log[i].author;
      LeqCounts(log[i].version, log[j].version);
      var c := Count(log[j].version, n);
      assert Own(log[i]) <= c;
      var k: nat :| IsNth(log, log[j].path, n, c, k) && Known(log, log[j].seen + {j}, k);
      KnownIsSelfOrCause(log, k, j);
      if k != i {
        assert SameWriter(log, i, k) || SameWriter(log, k, i);
        assert Causes(log, i, k);
        if k != j {
          CausesTransitive(log, i, k, j);
        }
      }
    }
    if Causes(log, i, j) {
      CausesOrdered(log, i, j);
    }
  }

  lemma KnownIsSelfOrCause(log: seq<Write>, k: nat, j: nat)
    requires HistoryOrdered(log) && j < |log| && Known(log, log[j].seen + {j}, k)
    ensures k == j || Causes(log, k, j)
  {
    if k !in log[j].seen + {j} {
      var m :| m in log[j].seen + {j} && m < |log| && Causes(log, k, m);
      assert m == j || (m in log[j].seen && m < j);
    }
  }

  /** For two published writes of one path in any run: the vectors compare as "after" exactly
      when one write is in the other's causal history, and as "concurrent" exactly when neither
      is; no two different writes compare as equal. */
  lemma VectorsCaptureCausality(steps: seq<Step>, i: nat, j: nat)
    requires i < |Run(steps).log| && j < |Run(steps).log| && Run(steps).log[i].path == Run(steps).log[j].path
    ensures var log := Run(steps).log; var o := Causal(log[i].version, log[j].version);
      && (o == AAfterB <==> Causes(log, j, i))
      && (o == BAfterA <==> Causes(log, i, j))
      && (o == Concurrent <==> i != j && !Causes(log, i, j) && !Causes(log, j, i))
      && (o == Equal <==> i == j)
  {
    var log := Run(steps).log;
    RunInv(steps);
    if Causes(log, i, j) {
      CausesOrdered(log, i, j);
    }
    if Causes(log, j, i) {
      CausesOrdered(log, j, i);
    }
    if i == j {
      LeqCounts(log[i].version, log[j].version);
    } else {
      LeqMeansHistory(log, i, j);
      LeqMeansHistory(log, j, i);
    }
  }
}
