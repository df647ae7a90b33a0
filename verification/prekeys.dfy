/** The one-time prekey pools of a node and what survives a restart
    (internal/crypto/x3dh/store.go, persist.go). */
module PreKeys {
  import opened Outcomes
  import opened Ratchet

  /** A rotating key pair, signed by the node's identity key. */
  datatype SignedPreKey = SignedPreKey(keyID: nat, priv: nat, signature: Signature)

  datatype Signature = Signature(signer: nat, over: PublicKey)

  datatype Bundle = Bundle(
    identityKey: nat,
    identityDHKey: Option<PublicKey>,
    signedPreKeyID: nat,
    signedPreKey: Option<PublicKey>,
    signature: Signature,
    oneTimePreKeyID: nat,
    oneTimePreKey: Option<PublicKey>)

  /** The value of a Store; key pairs are named by their private halves. */
  datatype Keys = Keys(
    identity: nat, identityDH: nat, signed: SignedPreKey,
    nextOTPID: nat, otps: map<nat, nat>, pending: map<nat, nat>)

  datatype OTPFile = OTPFile(keyID: nat, priv: nat)

  datatype StoreFile = StoreFile(identityDH: nat, signed: SignedPreKey, nextOTPID: nat, oneTimePreKeys: seq<OTPFile>)

  /** The signed prekey is signed with the node's own identity. */
  predicate SignsOwn(k: Keys) {
    k.signed.signature == Signature(k.identity, PublicKey(k.signed.priv))
  }

  function Sign(identity: nat, keyID: nat, priv: nat): SignedPreKey {
    SignedPreKey(keyID, priv, Signature(identity, PublicKey(priv)))
  }

  // ---- What each operation does to the keys ----

  /** The pool after `priv` key pairs with ids from `start` on are added, ids in 32 bits. */
  function WithGenerated(otps: map<nat, nat>, start: nat, privs: seq<nat>): map<nat, nat> {
    if privs == [] then otps
    else WithGenerated(otps, start, privs[..|privs| - 1])[(start + |privs| - 1) % UINT32 := privs[|privs| - 1]]
  }

  function Replenished(k: Keys, privs: seq<nat>): Keys {
    k.(otps := WithGenerated(k.otps, k.nextOTPID, privs), nextOTPID := (k.nextOTPID + |privs|) % UINT32)
  }

  function Rotated(k: Keys, priv: nat): Keys {
    k.(signed := Sign(k.identity, (k.signed.keyID + 1) % UINT32, priv))
  }

  /** The bundle that hands out one-time prekey `id`, or none when `id` is 0. */
  function BundleWith(k: Keys, id: nat): Bundle {
    Bundle(k.identity, Some(PublicKey(k.identityDH)), k.signed.keyID, Some(PublicKey(k.signed.priv)),
           k.signed.signature, id, if id in k.otps then Some(PublicKey(k.otps[id])) else None)
  }

  function Issued(k: Keys, id: nat): Keys {
    if id in k.otps then k.(otps := k.otps - {id}, pending := k.pending[id := k.otps[id]]) else k
  }

  function Consumed(k: Keys, id: nat): Keys {
    k.(pending := k.pending - {id})
  }

  function PoolOf(files: seq<OTPFile>): map<nat, nat> {
    if files == [] then map[]
    else PoolOf(files[..|files| - 1])[files[|files| - 1].keyID := files[|files| - 1].priv]
  }

  function Loaded(identity: nat, f: StoreFile): Keys {
    Keys(identity, f.identityDH, f.signed, f.nextOTPID, PoolOf(f.oneTimePreKeys), map[])
  }

  /** The file holds everything but the pending keys. */
  predicate Saves(f: StoreFile, k: Keys) {
    && f.identityDH == k.identityDH && f.signed == k.signed && f.nextOTPID == k.nextOTPID
    && PoolOf(f.oneTimePreKeys) == k.otps
  }

  class Store {
    var keys: Keys

    constructor New(identity: nat, identityDH: nat, signed: nat, otps: seq<nat>)
      ensures keys == Replenished(Keys(identity, identityDH, Sign(identity, 1, signed), 1, map[], map[]), otps)
    {
      keys := Keys(identity, identityDH, Sign(identity, 1, signed), 1, map[], map[]);
      new;
      ReplenishOneTimePreKeys(otps);
    }

    constructor Load(identity: nat, f: StoreFile)
      ensures keys == Loaded(identity, f)
    {
      var otps: map<nat, nat> := map[];
      for i := 0 to |f.oneTimePreKeys|
        invariant otps == PoolOf(f.oneTimePreKeys[..i])
      {
        assert f.oneTimePreKeys[..i + 1][..i] == f.oneTimePreKeys[..i];
        otps := otps[f.oneTimePreKeys[i].keyID := f.oneTimePreKeys[i].priv];
      }
      assert f.oneTimePreKeys[..|f.oneTimePreKeys|] == f.oneTimePreKeys;
      keys := Keys(identity, f.identityDH, f.signed, f.nextOTPID, otps, map[]);
    }

    method Save() returns (f: StoreFile)
      ensures Saves(f, keys)
    {
      var files: seq<OTPFile> := [];
      var todo := keys.otps.Keys;
      while todo != {}
        invariant todo <= keys.otps.Keys
        invariant PoolOf(files) == keys.otps - todo
        decreases todo
      {
        var id :| id in todo;
        ghost var before := files;
        files := files + [OTPFile(id, keys.otps[id])];
        assert files[..|files| - 1] == before;
        todo := todo - {id};
      }
      f := StoreFile(keys.identityDH, keys.signed, keys.nextOTPID, files);
    }

    method ReplenishOneTimePreKeys(privs: seq<nat>)
      modifies this
      ensures keys == Replenished(old(keys), privs)
    {
      var otps, start := keys.otps, keys.nextOTPID;
      for i := 0 to |privs|
        invariant otps == WithGenerated(old(keys).otps, start, privs[..i])
      {
        assert privs[..i + 1][..i] == privs[..i];
        otps := otps[(start + i) % UINT32 := privs[i]];
      }
      assert privs[..|privs|] == privs;
      keys := keys.(otps := otps, nextOTPID := (start + |privs|) % UINT32);
    }

    method RotateSignedPreKey(priv: nat)
      modifies this
      ensures keys == Rotated(old(keys), priv)
    {
      keys := keys.(signed := Sign(keys.identity, (keys.signed.keyID + 1) % UINT32, priv));
    }

    method TakeBundle() returns (b: Bundle)
      modifies this
      ensures b == BundleWith(old(keys), b.oneTimePreKeyID) && keys == Issued(old(keys), b.oneTimePreKeyID)
      ensures if old(keys).otps == map[] then b.oneTimePreKeyID == 0 else b.oneTimePreKeyID in old(keys).otps
    {
      b := Bundle(keys.identity, Some(PublicKey(keys.identityDH)), keys.signed.keyID,
                  Some(PublicKey(keys.signed.priv)), keys.signed.signature, 0, None);
      if keys.otps != map[] {
        assert keys.otps.Keys != {};
        var id :| id in keys.otps;
        b := b.(oneTimePreKeyID := id, oneTimePreKey := Some(PublicKey(keys.otps[id])));
        keys := keys.(pending := keys.pending[id := keys.otps[id]], otps := keys.otps - {id});
      }
    }
  }

  /** LoadStore after Save brings back everything but the pending keys. */
  lemma SaveThenLoad(k: Keys, f: StoreFile)
    requires Saves(f, k)
    ensures Loaded(k.identity, f) == k.(pending := map[])
  {
  }

  // ---- The life cycle of a one-time prekey, over any run ----

  /** A bundle request that picks `id`, if it is in the pool; a daemon's periodic save; a restart
      from what was last saved; the rest as in the class. */
  datatype Op =
    | TakeBundle(id: nat)
    | Replenish(privs: seq<nat>)
    | Rotate(priv: nat)
    | Respond(id: nat)
    | Save
    | Restart

  /** The live keys, the last saved file, and what has happened to ids so far: those handed out, of
      which the first `saved` before the last save or restart, and those consumed. */
  datatype Life = Life(keys: Keys, disk: Keys, issued: seq<nat>, saved: nat, consumed: seq<nat>)

  function After(l: Life, op: Op): Life {
    match op
    case TakeBundle(id) =>
      if id in l.keys.otps then l.(keys := Issued(l.keys, id), issued := l.issued + [id]) else l
    case Replenish(privs) => l.(keys := Replenished(l.keys, privs))
    case Rotate(priv) => l.(keys := Rotated(l.keys, priv))
    case Respond(id) =>
      if id in l.keys.pending then l.(keys := Consumed(l.keys, id), consumed := l.consumed + [id]) else l
    case Save => l.(disk := l.keys.(pending := map[]), saved := |l.issued|)
    case Restart => l.(keys := l.disk, saved := |l.issued|)
  }

  /** A first boot: an empty pool whose ids start at 1, saved at once. */
  function Born(identity: nat, identityDH: nat, signed: nat): Life {
    var k := Keys(identity, identityDH, Sign(identity, 1, signed), 1, map[], map[]);
    Life(k, k, [], 0, [])
  }

  function RunFrom(l: Life, ops: seq<Op>): Life {
    if ops == [] then l else After(RunFrom(l, ops[..|ops| - 1]), ops[|ops| - 1])
  }

  /** No one-time prekey was handed out since the last save or restart. */
  predicate NoneIssuedSince(l: Life) {
    l.saved == |l.issued|
  }

  /** No id overflows 32 bits, and no restart forgets a prekey that was handed out. */
  predicate Kept(l: Life, ops: seq<Op>) {
    ops == [] ||
    var before := RunFrom(l, ops[..|ops| - 1]);
    && Kept(l, ops[..|ops| - 1])
    && (ops[|ops| - 1].Replenish? ==> before.keys.nextOTPID + |ops[|ops| - 1].privs| < UINT32)
    && (ops[|ops| - 1].Restart? ==> NoneIssuedSince(before))
  }

  ghost predicate NoDuplicates(s: seq<nat>) {
    forall i, j :: 0 <= i < j < |s| ==> s[i] != s[j]
  }

  predicate InRange(id: nat, k: Keys) {
    1 <= id < k.nextOTPID
  }

  /** Available, pending and consumed ids are disjoint and in range, id 0 is never one of them,
      no id was put in two bundles, and none was consumed twice. */
  ghost predicate LifeInv(l: Life) {
    && l.keys.nextOTPID >= 1 && l.disk.pending == map[] && l.disk.identityDH == l.keys.identityDH
    && (forall id :: id in l.keys.otps ==> InRange(id, l.keys) && id !in l.issued)
    && (forall id :: id in l.keys.pending ==> id in l.issued && id !in l.consumed)
    && (forall id :: id in l.issued ==> InRange(id, l.keys))
    && (forall id :: id in l.consumed ==> id in l.issued)
    && NoDuplicates(l.issued) && NoDuplicates(l.consumed)
  }

  lemma {:induction false} GeneratedIds(otps: map<nat, nat>, start: nat, privs: seq<nat>)
    requires start + |privs| < UINT32
    ensures forall id :: id in WithGenerated(otps, start, privs) <==> id in otps || start <= id < start + |privs|
  {
    if privs != [] {
      GeneratedIds(otps, start, privs[..|privs| - 1]);
    }
  }

  /** The saved file is as old as its last save: it holds nothing handed out before, and whatever was
      handed out since is in it, or newer than it. */
  ghost predicate DiskInv(l: Life) {
    && l.saved <= |l.issued| && 1 <= l.disk.nextOTPID <= l.keys.nextOTPID
    && (forall id :: id in l.disk.otps ==> InRange(id, l.disk) && id !in l.issued[..l.saved])
    && (forall id :: id in l.issued[..l.saved] ==> InRange(id, l.disk))
    && (forall id :: id in l.issued[l.saved..] ==> id in l.disk.otps || id >= l.disk.nextOTPID)
    && (forall id :: id in l.keys.otps ==> id in l.disk.otps || id >= l.disk.nextOTPID)
  }

  /** The live and the saved signed prekey are signed with the one identity of the node. */
  predicate OwnInv(l: Life) {
    SignsOwn(l.keys) && SignsOwn(l.disk) && l.disk.identity == l.keys.identity
  }

  ghost predicate RunInv(l: Life) {
    LifeInv(l) && DiskInv(l) && OwnInv(l)
  }

  lemma IssueKeeps(l: Life, id: nat)
    requires RunInv(l) && id in l.keys.otps
    ensures RunInv(After(l, TakeBundle(id)))
  {
    var t := After(l, TakeBundle(id));
    assert t.issued[..t.saved] == l.issued[..l.saved];
    assert t.issued[t.saved..] == l.issued[l.saved..] + [id];
  }

  lemma ReplenishKeeps(l: Life, privs: seq<nat>)
    requires RunInv(l) && l.keys.nextOTPID + |privs| < UINT32
    ensures RunInv(After(l, Replenish(privs)))
  {
    GeneratedIds(l.keys.otps, l.keys.nextOTPID, privs);
  }

  lemma SavedKeeps(l: Life)
    requires RunInv(l)
    ensures RunInv(After(l, Save))
  {
    assert l.issued[..|l.issued|] == l.issued && l.issued[|l.issued|..] == [];
  }

  /** A restart keeps the life cycle exactly when nothing was handed out since the last save. */
  lemma RestartGuard(l: Life)
    requires RunInv(l)
    ensures LifeInv(After(l, Restart)) <==> NoneIssuedSince(l)
    ensures NoneIssuedSince(l) ==> RunInv(After(l, Restart))
  {
    assert l.issued[..|l.issued|] == l.issued && l.issued[|l.issued|..] == [];
    if !NoneIssuedSince(l) {
      var id := l.issued[l.saved];
      assert id in l.issued[l.saved..] && id in l.issued;
    }
  }

  lemma StepKeeps(l: Life, op: Op)
    requires RunInv(l) && Kept(l, [op])
    ensures RunInv(After(l, op))
  {
    assert [op][..0] == [];
    match op
    case TakeBundle(id) =>
      if id in l.keys.otps {
        IssueKeeps(l, id);
      }
    case Replenish(privs) => ReplenishKeeps(l, privs);
    case Save => SavedKeeps(l);
    case Restart => RestartGuard(l);
    case _ =>
  }

  /** From a first boot, and from every later state: the life cycle holds over every run in which no
      restart comes after a bundle that was not saved. */
  lemma {:induction false} PreKeyLifeCycle(l: Life, ops: seq<Op>)
    requires RunInv(l) && Kept(l, ops)
    ensures RunInv(RunFrom(l, ops))
  {
    if ops != [] {
      var before := RunFrom(l, ops[..|ops| - 1]);
      PreKeyLifeCycle(l, ops[..|ops| - 1]);
      assert [ops[|ops| - 1]][..0] == [];
      StepKeeps(before, ops[|ops| - 1]);
    }
  }

  lemma BornInv(identity: nat, identityDH: nat, signed: nat)
    ensures RunInv(Born(identity, identityDH, signed))
  {
  }

  /** How often the signed prekey was rotated. */
  function Rotations(ops: seq<Op>): nat {
    if ops == [] then 0 else Rotations(ops[..|ops| - 1]) + if ops[|ops| - 1].Rotate? then 1 else 0
  }

  /** Every rotation takes the next id, 32 bits wide, and a save brings it over a restart. */
  lemma {:induction false} RotationsNumber(l: Life, ops: seq<Op>)
    requires l.keys.signed.keyID < UINT32 && forall i :: 0 <= i < |ops| ==> ops[i] != Restart
    ensures RunFrom(l, ops).keys.signed.keyID == (l.keys.signed.keyID + Rotations(ops)) % UINT32
    ensures RunFrom(l, ops + [Save, Restart]).keys.signed == RunFrom(l, ops).keys.signed
  {
    SavedRestart(l, ops);
    if ops != [] {
      RotationsNumber(l, ops[..|ops| - 1]);
    }
  }

  lemma BornNumber(identity: nat, identityDH: nat, signed: nat, ops: seq<Op>, id: nat)
    requires forall i :: 0 <= i < |ops| ==> ops[i] != Restart
    ensures BundleWith(RunFrom(Born(identity, identityDH, signed), ops).keys, id).signedPreKeyID
            == (1 + Rotations(ops)) % UINT32
  {
    RotationsNumber(Born(identity, identityDH, signed), ops);
  }

  lemma SavedRestart(l: Life, ops: seq<Op>)
    ensures RunFrom(l, ops + [Save, Restart]).keys == RunFrom(l, ops).keys.(pending := map[])
  {
    var whole := ops + [Save, Restart];
    assert whole[..|whole| - 1] == ops + [Save] && (ops + [Save])[..|ops|] == ops;
  }

  /** The rotated key pair is the one in force, under its own id, in the next bundle. */
  lemma BundleNamesSigned(l: Life, priv: nat, id: nat)
    ensures var b := BundleWith(After(l, Rotate(priv)).keys, id);
      && b.signedPreKey == Some(PublicKey(priv)) && b.signedPreKeyID == (l.keys.signed.keyID + 1) % UINT32
      && b.oneTimePreKeyID == id && (b.oneTimePreKey.Some? <==> id in l.keys.otps)
      && b.identityKey == l.keys.identity && b.identityDHKey == Some(PublicKey(l.keys.identityDH))
  {
  }

  /** After any such run, one more restart keeps the life cycle - no id in two bundles, none consumed
      twice, all in range - exactly when no one-time prekey was handed out since the last save or
      restart. The daemon saves on a timer, so nothing makes sure of it. */
  lemma RestartKeepsLifeCycle(identity: nat, identityDH: nat, signed: nat, ops: seq<Op>)
    requires Kept(Born(identity, identityDH, signed), ops)
    ensures var l := RunFrom(Born(identity, identityDH, signed), ops);
      LifeInv(l) && (LifeInv(After(l, Restart)) <==> NoneIssuedSince(l))
  {
    BornInv(identity, identityDH, signed);
    PreKeyLifeCycle(Born(identity, identityDH, signed), ops);
    RestartGuard(RunFrom(Born(identity, identityDH, signed), ops));
  }

  /** The periodic save leaves a window: a bundle handed out after it and lost in a crash is
      handed out again. */
  lemma StaleSaveReissues()
    ensures var ops := [Replenish([7]), Save, TakeBundle(1), Restart, TakeBundle(1)];
      RunFrom(Born(1, 2, 3), ops).issued == [1, 1]
  {
    var b := Born(1, 2, 3);
    var ops := [Replenish([7]), Save, TakeBundle(1), Restart, TakeBundle(1)];
    assert ops[..4][..3] == ops[..3] && ops[..3][..2] == ops[..2] && ops[..2][..1] == ops[..1] && ops[..1][..0] == [];
    assert WithGenerated(map[], 1, [7]) == map[1 := 7] by {
      assert [7][..0] == [];
    }
    var l1, l2 := RunFrom(b, ops[..1]), RunFrom(b, ops[..2]);
    assert RunFrom(b, ops[..0]) == b;
    assert l1 == After(RunFrom(b, ops[..1][..0]), ops[..1][0]) == After(b, ops[0]);
    assert l1.keys.otps == map[1 := 7];
    assert l2 == After(l1, ops[1]) && l2.disk.otps == map[1 := 7];
    var l3, l4 := RunFrom(b, ops[..3]), RunFrom(b, ops[..4]);
    assert l3 == After(l2, ops[2]) && l3.issued == [1] && l3.disk == l2.disk;
    assert l4 == After(l3, ops[3]) && l4.keys.otps == map[1 := 7] && l4.issued == [1];
    assert RunFrom(b, ops) == After(l4, ops[4]);
  }
}
