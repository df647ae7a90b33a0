/** What a delivery decides, and that encrypted sessions stay in lockstep, over any run. */
module Delivery {
  import opened Outcomes
  import opened Paths
  import opened Version
  import opened Ratchet
  import opened Events
  import opened Bridge
  import opened Session

  // ---- First deliveries and re-deliveries ----

  /** The author of message `r` had consumed every write that `x` has published to path `p`. */
  predicate AuthorHadAll(log: seq<Record>, r: Record, x: Side, p: Path) {
    forall i :: 0 <= i < |log| && IsWriteBy(log[i], x, p) ==> i < r.at
  }

  /** The next message of node `x` is a write by its peer. */
  predicate NextIsPeerWrite(s: State, x: Side) {
    s.Of(x).cursor < |s.log| && s.log[s.Of(x).cursor].author == x.Other() && s.log[s.Of(x).cursor].ev.Write?
  }

  /** A first delivery is never stale. It overwrites the plain file exactly when its author had
      already received every write this node published for the path, and goes to a conflict file
      otherwise. */
  lemma FirstDelivery(s: State, x: Side, now: nat)
    requires CountInv(s) && NextIsPeerWrite(s, x)
    requires Received(s.Of(x).node, s.log[s.Of(x).cursor].ev, now).Ok?
    ensures var r := s.log[s.Of(x).cursor];
      var (node, outcome) := Received(s.Of(x).node, r.ev, now).value;
      && (outcome == AppliedIt <==> AuthorHadAll(s.log, r, x, r.ev.path))
      && (!AuthorHadAll(s.log, r, x, r.ev.path) <==> outcome == SetAside(ConflictPath(r.ev.path, s.Id(x.Other()), now)))
      && outcome != Stale && outcome != Skipped
  {
    var l := s.Of(x);
    var r := s.log[l.cursor];
    assert RecordCounts(IdsOf(s), s.log, l.cursor);
    assert LocalCounts(IdsOf(s), s.log, x, l.cursor, l.node.versions);
    FirstDeliveryOrder(IdsOf(s), s.log, x, l.cursor, At(l.node.versions, r.ev.path));
    assert r.ev.origin == s.Id(x.Other());
  }

  /** Whatever the data, a write the node has already consumed is dropped when it comes again:
      it changes nothing and is never taken for a conflict. */
  lemma Redelivery(s: State, x: Side, i: nat, data: Payload, now: nat)
    requires CountInv(s) && i < s.Of(x).cursor && s.log[i].author == x.Other() && s.log[i].ev.Write?
    ensures AppliedEvent(s.Of(x).node, s.log[i].ev.(data := data), now) == Ok((s.Of(x).node, Stale))
  {
    var l := s.Of(x);
    var r := s.log[i];
    var p, local := r.ev.path, At(l.node.versions, r.ev.path);
    assert RecordCounts(IdsOf(s), s.log, i);
    assert LocalCounts(IdsOf(s), s.log, x, l.cursor, l.node.versions);
    assert x.Other().Other() == x;
    WritesMonotone(s.log, x.Other(), p, i + 1, l.cursor);
    WritesMonotone(s.log, x, p, r.at, |s.log|);
    LeqCounts(r.ev.version, local);
    assert l.node.(versions := StoreAfter(l.node.versions, p, r.ev.version)) == l.node;
  }

  // ---- Lockstep ----

  /** The plaintext a write carries, encrypted or not. */
  function PlainOf(ev: Event): Content
    requires ev.Write?
  {
    if ev.data.Clear? then ev.data.data else ev.data.sealed.plain
  }

  /** A write is sealed at the position its author's chain had reached. */
  ghost predicate RecordSealed(keys: Option<Keys>, log: seq<Record>, i: nat)
    requires i < |log|
  {
    var r := log[i];
    r.ev.Write? ==>
      && r.ev.hash == ContentHash(PlainOf(r.ev))
      && match keys
         case None => r.ev.data.Clear?
         case Some(k) =>
           var c := ChainAt(k.Root(r.author), WritesBy(log, r.author, i));
           r.ev.data == Cipher(Seal(c, PlainOf(r.ev), k.ad)) && r.ev.sequence == c.n
  }

  /** The sending chain has advanced once per write published, and the receiving chain once per
      peer write consumed, whatever became of it. */
  ghost predicate LocalChains(keys: Option<Keys>, log: seq<Record>, x: Side, l: Local) {
    && l.cursor <= |log|
    && match keys
       case None => l.node.enc.None?
       case Some(k) =>
         l.node.enc == Some(Chains(ChainAt(k.Root(x), WritesBy(log, x, |log|)),
                                   ChainAt(k.Root(x.Other()), WritesBy(log, x.Other(), l.cursor)), k.ad))
  }

  ghost predicate ChainInv(keys: Option<Keys>, s: State) {
    && (forall x: Side :: LocalChains(keys, s.log, x, s.Of(x)))
    && (forall i: nat :: i < |s.log| ==> RecordSealed(keys, s.log, i))
  }

  lemma AppendChains(keys: Option<Keys>, s: State, x: Side, t: State, r: Record)
    requires ChainInv(keys, s) && IsAppend(s, x, t, r)
    ensures ChainInv(keys, t)
  {
    assert LocalChains(keys, s.log, x, s.Of(x));
    forall z: Side ensures LocalChains(keys, t.log, z, t.Of(z)) {
      AppendedLocal(keys, s, x, t, r, z);
    }
    forall i: nat | i < |t.log| ensures RecordSealed(keys, t.log, i) {
      CountsStable(s.log, r, t.log[i].author, [Plain("")], i);
      if i < |s.log| {
        assert RecordSealed(keys, s.log, i);
      }
    }
  }

  lemma AppendedLocal(keys: Option<Keys>, s: State, x: Side, t: State, r: Record, z: Side)
    requires ChainInv(keys, s) && IsAppend(s, x, t, r)
    ensures LocalChains(keys, t.log, z, t.Of(z))
  {
    assert LocalChains(keys, s.log, z, s.Of(z));
    CountsStable(s.log, r, z, [Plain("")], |s.log|);
    CountsStable(s.log, r, z.Other(), [Plain("")], s.Of(z).cursor);
  }

  lemma ConsumeChains(keys: Option<Keys>, s: State, x: Side, t: State)
    requires ChainInv(keys, s) && IsConsume(s, x, t)
    ensures ChainInv(keys, t)
  {
    var c := s.Of(x).cursor;
    assert LocalChains(keys, s.log, x, s.Of(x)) && RecordSealed(keys, s.log, c);
    assert LocalChains(keys, s.log, x, t.Of(x)) by {
      assert s.log[c].author == x.Other() || s.log[c].author == x;
    }
    forall z: Side ensures LocalChains(keys, t.log, z, t.Of(z)) {
      assert z == x || (z == x.Other() && LocalChains(keys, s.log, z, s.Of(z)));
    }
  }

  lemma StepChains(keys: Option<Keys>, s: State, x: Side, step: Step)
    requires CountInv(s) && ChainInv(keys, s) && Next(s, x, step).Some?
    ensures ChainInv(keys, Next(s, x, step).value)
  {
    var t, c := Next(s, x, step).value, s.Of(x).cursor;
    if c < |s.log| {
      assert RecordCounts(IdsOf(s), s.log, c);
    }
    StepShape(s, x, step);
    if IsQuiet(s, x, t) {
      forall z: Side ensures LocalChains(keys, t.log, z, t.Of(z)) {
        assert LocalChains(keys, s.log, z, s.Of(z));
      }
    } else if step.Deliver? {
      ConsumeChains(keys, s, x, t);
    } else {
      AppendChains(keys, s, x, t, t.log[|s.log|]);
    }
  }

  lemma {:induction false} RunChains(keys: Option<Keys>, s: State, run: Run)
    requires CountInv(s) && ChainInv(keys, s) && RunFrom(s, run).Some?
    ensures ChainInv(keys, RunFrom(s, run).value)
  {
    if run != [] {
      var front := run[..|run| - 1];
      RunChains(keys, s, front);
      RunCounts(s, front);
      StepChains(keys, RunFrom(s, front).value, run[|run| - 1].0, run[|run| - 1].1);
    }
  }

  /** Decrypt never fails: when a delivery ends a session, it is the file system that refused. */
  lemma NeverFailsToDecrypt(keys: Option<Keys>, s: State, x: Side, now: nat)
    requires CountInv(s) && ChainInv(keys, s) && NextIsPeerWrite(s, x)
    ensures var r := s.log[s.Of(x).cursor];
      && Decrypted(s.Of(x).node, r.ev).Ok?
      && Decrypted(s.Of(x).node, r.ev).value.1 == r.ev.(data := Clear(PlainOf(r.ev)))
      && (Received(s.Of(x).node, r.ev, now).Err? ==> Received(s.Of(x).node, r.ev, now).error.Application?)
  {
    assert RecordSealed(keys, s.log, s.Of(x).cursor);
    assert LocalChains(keys, s.log, x, s.Of(x));
    assert x.Other().Other() == x;
  }

  /** In every run of a session, encrypted or not: each chain stands where the count of writes
      says, a peer's next write decrypts to what its author read from disk, and its hash matches. */
  lemma Lockstep(ida: MachineId, idb: MachineId, fa: Files, fb: Files, keys: Option<Keys>, run: Run, x: Side)
    requires ida != idb && RunFrom(Start(ida, idb, fa, fb, keys), run).Some?
    ensures var s := RunFrom(Start(ida, idb, fa, fb, keys), run).value;
      && LocalChains(keys, s.log, x, s.Of(x))
      && (NextIsPeerWrite(s, x) ==>
            var ev := s.log[s.Of(x).cursor].ev;
            && Decrypted(s.Of(x).node, ev).Ok?
            && Decrypted(s.Of(x).node, ev).value.1 == ev.(data := Clear(PlainOf(ev)))
            && ev.hash == ContentHash(PlainOf(ev)))
  {
    var s0 := Start(ida, idb, fa, fb, keys);
    StartCounts(ida, idb, fa, fb, keys);
    RunCounts(s0, run);
    RunChains(keys, s0, run);
    var s := RunFrom(s0, run).value;
    if NextIsPeerWrite(s, x) {
      NeverFailsToDecrypt(keys, s, x, 0);
      assert RecordSealed(keys, s.log, s.Of(x).cursor);
    }
  }

  // ---- Re-deliveries in the live loop ----

  lemma {:induction false} WritesByGrows(log: seq<Record>, x: Side, i: nat, k: nat)
    requires i < k <= |log| && log[i].author == x && log[i].ev.Write?
    ensures WritesBy(log, x, i) < WritesBy(log, x, k)
  {
    if i < k - 1 {
      WritesByGrows(log, x, i, k - 1);
    }
  }

  /** A write that is delivered a second time is dropped in a plain session. In an encrypted one it
      ends the session: its message key is gone, and the loop decrypts before it decides. */
  lemma RedeliveredToLoop(keys: Option<Keys>, s: State, x: Side, i: nat, now: nat)
    requires CountInv(s) && ChainInv(keys, s) && i < s.Of(x).cursor
    requires s.log[i].author == x.Other() && s.log[i].ev.Write?
    requires keys.Some? ==> IsRoot(keys.value.Root(x.Other()))
    ensures var r := Received(s.Of(x).node, s.log[i].ev, now);
      if keys.None? then r == Ok((s.Of(x).node, Stale)) else r.Err? && r.error.Decryption?
  {
    var n, ev := s.Of(x).node, s.log[i].ev;
    assert RecordSealed(keys, s.log, i) && LocalChains(keys, s.log, x, s.Of(x));
    assert RecordCounts(IdsOf(s), s.log, i);
    if keys.None? {
      Redelivery(s, x, i, ev.data, now);
    } else {
      var root, y := keys.value.Root(x.Other()), x.Other();
      WritesByGrows(s.log, y, i, s.Of(x).cursor);
      OpensExactlyInOrder(root, WritesBy(s.log, y, i), WritesBy(s.log, y, s.Of(x).cursor), PlainOf(ev), keys.value.ad);
    }
  }
}
