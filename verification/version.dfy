/** Per-path version vectors (internal/syncfs/version.go). */
module Version {
  import opened Paths

  type Vector = map<MachineId, nat>

  type Store = map<Path, Vector>

  datatype Order = Equal | AAfterB | BAfterA | Concurrent

  /** A component of a vector; a missing one reads as zero. */
  function Count(v: Vector, k: MachineId): nat {
    if k in v then v[k] else 0
  }

  function Max(a: nat, b: nat): nat {
    if a < b then b else a
  }

  /** Every component of `a` is at most the matching one of `b`. */
  predicate Leq(a: Vector, b: Vector) {
    forall k :: k in a ==> a[k] <= Count(b, k)
  }

  /** The causal order of two vectors, in terms of domination only. */
  function Causal(a: Vector, b: Vector): Order {
    if Leq(a, b) && Leq(b, a) then Equal
    else if Leq(b, a) then AAfterB
    else if Leq(a, b) then BAfterA
    else Concurrent
  }

  lemma LeqCounts(a: Vector, b: Vector)
    ensures Leq(a, b) <==> forall k :: Count(a, k) <= Count(b, k)
  {
    if forall k :: Count(a, k) <= Count(b, k) {
      forall k | k in a ensures a[k] <= Count(b, k) {
        assert Count(a, k) <= Count(b, k);
      }
    }
  }

  method CompareVectors(a: Vector, b: Vector) returns (o: Order)
    ensures o == Causal(a, b)
  {
    var aGreater, bGreater := false, false;
    var seen: set<MachineId> := {};
    var todo := a.Keys;
    while todo != {}
      invariant todo <= a.Keys && seen == a.Keys - todo
      decreases todo
    {
      var k :| k in todo;
      seen := seen + {k};
      todo := todo - {k};
    }
    todo := b.Keys;
    while todo != {}
      invariant todo <= b.Keys && a.Keys <= seen && seen == a.Keys + (b.Keys - todo)
      decreases todo
    {
      var k :| k in todo;
      seen := seen + {k};
      todo := todo - {k};
    }
    todo := seen;
    while todo != {}
      invariant todo <= seen == a.Keys + b.Keys
      invariant aGreater <==> exists k :: k in seen - todo && Count(a, k) > Count(b, k)
      invariant bGreater <==> exists k :: k in seen - todo && Count(b, k) > Count(a, k)
      decreases todo
    {
      var k :| k in todo;
      if Count(a, k) > Count(b, k) {
        aGreater := true;
      }
      if Count(b, k) > Count(a, k) {
        bGreater := true;
      }
      todo := todo - {k};
    }
    LeqCounts(a, b);
    LeqCounts(b, a);
    if aGreater && bGreater {
      o := Concurrent;
    } else if aGreater {
      o := AAfterB;
    } else if bGreater {
      o := BAfterA;
    } else {
      o := Equal;
    }
  }

  function At(s: Store, p: Path): Vector {
    if p in s then s[p] else map[]
  }

  /** `v` is the component-wise maximum of `a` and `b`. */
  ghost predicate IsJoin(v: Vector, a: Vector, b: Vector) {
    forall k :: Count(v, k) == Max(Count(a, k), Count(b, k))
  }

  function Bumped(v: Vector, id: MachineId): Vector {
    v[id := Count(v, id) + 1]
  }

  /** The merge of the concurrent branch: a zero of `incoming` is not copied. */
  function Merged(local: Vector, incoming: Vector): Vector {
    map k | k in local.Keys + incoming.Keys && (k in local || incoming[k] > 0)
      :: Max(Count(local, k), Count(incoming, k))
  }

  /** What Reconcile stores for a path that held `local`. */
  function Adopted(local: Vector, incoming: Vector): Vector {
    match Causal(incoming, local)
    case AAfterB => incoming
    case Concurrent => Merged(local, incoming)
    case _ => local
  }

  function StoreAfter(s: Store, p: Path, incoming: Vector): Store {
    if Causal(incoming, At(s, p)) in {AAfterB, Concurrent} then s[p := Adopted(At(s, p), incoming)] else s
  }

  /** In all four branches the stored vector becomes the join of what was stored and what came in. */
  lemma AdoptedIsJoin(local: Vector, incoming: Vector)
    ensures IsJoin(Adopted(local, incoming), local, incoming)
  {
    LeqCounts(local, incoming);
    LeqCounts(incoming, local);
    var m := Merged(local, incoming);
    forall k ensures Count(m, k) == Max(Count(local, k), Count(incoming, k)) {
    }
  }

  /** The merge loop of the concurrent branch. */
  method Merge(local: Vector, incoming: Vector) returns (merged: Vector)
    ensures merged == Merged(local, incoming)
  {
    merged := local;
    var todo := incoming.Keys;
    while todo != {}
      invariant todo <= incoming.Keys
      invariant forall k :: k in merged <==> k in local || (k in incoming && k !in todo && incoming[k] > 0)
      invariant forall k :: k in merged ==>
        merged[k] == Max(Count(local, k), if k in todo then 0 else Count(incoming, k))
      decreases todo
    {
      var k :| k in todo;
      if incoming[k] > Count(merged, k) {
        merged := merged[k := incoming[k]];
      }
      todo := todo - {k};
    }
  }

  class VersionStore {
    var byPath: Store

    constructor ()
      ensures byPath == map[]
    {
      byPath := map[];
    }

    method Bump(relPath: Path, machineID: MachineId) returns (v: Vector)
      modifies this
      ensures byPath == old(byPath)[relPath := v]
      ensures forall k :: Count(v, k) == Count(At(old(byPath), relPath), k) + if k == machineID then 1 else 0
      ensures v == Bumped(At(old(byPath), relPath), machineID)
    {
      v := if relPath in byPath then byPath[relPath] else map[];
      v := v[machineID := (if machineID in v then v[machineID] else 0) + 1];
      byPath := byPath[relPath := v];
    }

    method Reconcile(relPath: Path, incoming: Vector) returns (safe: bool, conflict: bool)
      modifies this
      ensures byPath == StoreAfter(old(byPath), relPath, incoming)
      ensures IsJoin(At(byPath, relPath), At(old(byPath), relPath), incoming)
      ensures safe <==> Leq(At(old(byPath), relPath), incoming) && !Leq(incoming, At(old(byPath), relPath))
      ensures conflict <==> !Leq(At(old(byPath), relPath), incoming) && !Leq(incoming, At(old(byPath), relPath))
    {
      var local := if relPath in byPath then byPath[relPath] else map[];
      AdoptedIsJoin(local, incoming);
      var order := CompareVectors(incoming, local);
      match order {
        case Equal =>
          return false, false;
        case AAfterB =>
          byPath := byPath[relPath := incoming];
          return true, false;
        case BAfterA =>
          return false, false;
        case Concurrent =>
          var merged := Merge(local, incoming);
          byPath := byPath[relPath := merged];
          return false, true;
      }
    }
  }

  // ---- The stored vector is the join of everything seen ----

  /** One call on the store for a fixed path. */
  datatype Call = BumpBy(id: MachineId) | Receive(vector: Vector)

  /** The stored vector after a sequence of calls from an empty store. */
  function Stored(calls: seq<Call>): Vector {
    if calls == [] then map[]
    else
      var before := Stored(calls[..|calls| - 1]);
      match calls[|calls| - 1]
      case BumpBy(id) => Bumped(before, id)
      case Receive(v) => Adopted(before, v)
  }

  /** The vector call `i` bumped to or received. */
  function SeenAt(calls: seq<Call>, i: nat): Vector
    requires i < |calls|
  {
    match calls[i]
    case BumpBy(_) => Stored(calls[..i + 1])
    case Receive(v) => v
  }

  /** `n` is the greatest of component `k` over every vector seen, and zero when none was. */
  ghost predicate IsGreatest(calls: seq<Call>, k: MachineId, n: nat) {
    && (forall i :: 0 <= i < |calls| ==> Count(SeenAt(calls, i), k) <= n)
    && (n == 0 || exists i :: 0 <= i < |calls| && Count(SeenAt(calls, i), k) == n)
  }

  lemma {:induction false} StoredIsJoinOfSeen(calls: seq<Call>, k: MachineId)
    ensures IsGreatest(calls, k, Count(Stored(calls), k))
  {
    if calls != [] {
      var n := |calls| - 1;
      var front := calls[..n];
      StoredIsJoinOfSeen(front, k);
      forall i | 0 <= i < n ensures SeenAt(calls, i) == SeenAt(front, i) {
        assert calls[..i + 1] == front[..i + 1];
      }
      assert calls[..n + 1] == calls;
      if calls[n].Receive? {
        AdoptedIsJoin(Stored(front), calls[n].vector);
      }
      var c := Count(Stored(calls), k);
      if c != 0 && Count(SeenAt(calls, n), k) != c {
        var i :| 0 <= i < n && Count(SeenAt(front, i), k) == c;
        assert Count(SeenAt(calls, i), k) == c;
      }
    }
  }

  /** Every vector that `a` bumped to or received is one that `b` bumped to or received. */
  ghost predicate SeesNoMore(a: seq<Call>, b: seq<Call>) {
    forall i :: 0 <= i < |a| ==> HasSeen(b, SeenAt(a, i))
  }

  ghost predicate HasSeen(calls: seq<Call>, v: Vector) {
    exists j :: 0 <= j < |calls| && SeenAt(calls, j) == v
  }

  lemma StoredAtMost(a: seq<Call>, b: seq<Call>, k: MachineId)
    requires SeesNoMore(a, b)
    ensures Count(Stored(a), k) <= Count(Stored(b), k)
  {
    StoredIsJoinOfSeen(a, k);
    StoredIsJoinOfSeen(b, k);
    var n := Count(Stored(a), k);
    if n != 0 {
      var i :| 0 <= i < |a| && Count(SeenAt(a, i), k) == n;
      assert HasSeen(b, SeenAt(a, i));
      var j :| 0 <= j < |b| && SeenAt(b, j) == SeenAt(a, i);
    }
  }

  /** Order and duplicates do not matter: two sequences of calls, bumps and deliveries in any mixture,
      that saw the same vectors store the same counts. */
  lemma SameSeenSameStored(a: seq<Call>, b: seq<Call>, k: MachineId)
    requires SeesNoMore(a, b) && SeesNoMore(b, a)
    ensures Count(Stored(a), k) == Count(Stored(b), k)
  {
    StoredAtMost(a, b, k);
    StoredAtMost(b, a, k);
  }

  function Deliveries(vs: seq<Vector>): (calls: seq<Call>)
    ensures |calls| == |vs| && forall i :: 0 <= i < |vs| ==> calls[i] == Receive(vs[i])
  {
    seq(|vs|, i requires 0 <= i < |vs| => Receive(vs[i]))
  }

  /** In particular, for deliveries alone: only the set of vectors received matters. */
  lemma DeliveryOrderIrrelevant(a: seq<Vector>, b: seq<Vector>, k: MachineId)
    requires forall v :: v in a <==> v in b
    ensures Count(Stored(Deliveries(a)), k) == Count(Stored(Deliveries(b)), k)
  {
    DeliveredElsewhere(a, b);
    DeliveredElsewhere(b, a);
    SameSeenSameStored(Deliveries(a), Deliveries(b), k);
  }

  lemma DeliveredElsewhere(a: seq<Vector>, b: seq<Vector>)
    requires forall v :: v in a ==> v in b
    ensures SeesNoMore(Deliveries(a), Deliveries(b))
  {
    var ca, cb := Deliveries(a), Deliveries(b);
    forall i | 0 <= i < |ca| ensures HasSeen(cb, SeenAt(ca, i)) {
      assert a[i] in b;
      var j :| 0 <= j < |b| && b[j] == a[i];
      assert SeenAt(cb, j) == SeenAt(ca, i);
    }
  }
}
