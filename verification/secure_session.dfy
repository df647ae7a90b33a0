/** A watch session from its handshake on: X3DH on both ends, the two chains each end derives by
    itself, and any run of the session they encrypt (cmd/jsync/main.go,
    internal/daemon/watch_session.go, internal/syncfs/bridge.go). */
module SecureSession {
  import opened Outcomes
  import opened Paths
  import opened Ratchet
  import opened Events
  import opened Bridge
  import P = PreKeys
  import X = X3DH
  import S = Session
  import D = Delivery

  /** A handshake: the responder's store when it hands out a bundle with one-time prekey `id` (0: none),
      what happens to the store before the bootstrap message arrives, and the key pairs of both ends. */
  datatype Handshake = Handshake(store: P.Life, id: nat, ops: seq<P.Op>, initiatorDH: nat, ephemeral: nat,
                                 reply: nat, ad: AssociatedData) {
    /** The responder's keys when it derives its half. */
    function Later(): P.Keys {
      P.RunFrom(P.After(store, P.TakeBundle(id)), ops).keys
    }

    ghost predicate Valid() {
      && P.RunInv(store) && (id == 0 || id in store.keys.otps)
      && P.Kept(P.After(store, P.TakeBundle(id)), ops) && X.Leaves(ops, id)
    }

    /** The signed prekey of the bundle has not been rotated. */
    predicate Fresh() {
      Later().signed.priv == store.keys.signed.priv
    }

    function InitiatorSecret(): Result<X.Initiated, X.DeriveError> {
      X.DeriveInitiator(initiatorDH, ephemeral, P.BundleWith(store.keys, id))
    }

    function ResponderSecret(): Result<Term, X.DeriveError> {
      X.DeriveResponder(Later(), PublicKey(initiatorDH), PublicKey(ephemeral), id)
    }

    /** The initiator's two chains: outbound to the bundle's signed prekey, inbound from the key of the
        acknowledgement. */
    function InitiatorChains(): Chains
      requires InitiatorSecret().Ok?
    {
      var sk := InitiatorSecret().value.sk;
      Chains(InitChain(sk, ephemeral, PublicKey(store.keys.signed.priv)),
             InitChain(sk, ephemeral, PublicKey(reply)), ad)
    }

    /** The responder's: inbound with its signed prekey, outbound with a fresh key of its own. */
    function ResponderChains(): Chains
      requires ResponderSecret().Ok?
    {
      var sk := ResponderSecret().value;
      Chains(InitChain(sk, reply, PublicKey(ephemeral)),
             InitChain(sk, Later().signed.priv, PublicKey(ephemeral)), ad)
    }

    /** The keys of the session, as the initiator knows them. */
    function SessionKeys(): S.Keys
      requires InitiatorSecret().Ok?
    {
      S.Keys(InitiatorChains().send.key, InitiatorChains().recv.key, ad)
    }
  }

  /** The session as the two ends start it, each with the chains it has derived. */
  function Start(h: Handshake, ida: MachineId, idb: MachineId, fa: Files, fb: Files): S.State
    requires h.InitiatorSecret().Ok? && h.ResponderSecret().Ok?
  {
    S.State(S.Local(Node(ida, fa, map[], EMPTY_GUARD, Some(h.InitiatorChains())), 0, {}, map[], {}),
            S.Local(Node(idb, fb, map[], EMPTY_GUARD, Some(h.ResponderChains())), 0, {}, map[], {}), [])
  }

  /** Both ends always get their secrets; their chains mirror each other, in both directions, exactly
      when the signed prekey is still the one in the bundle. */
  lemma HandshakeMirrors(h: Handshake)
    requires h.Valid()
    ensures h.InitiatorSecret().Ok? && h.ResponderSecret().Ok?
    ensures var a, b := h.InitiatorChains(), h.ResponderChains();
      && (a.send == b.recv <==> h.Fresh()) && (a.recv == b.send <==> h.Fresh())
      && IsRoot(a.send.key) && IsRoot(a.recv.key) && IsRoot(b.send.key) && IsRoot(b.recv.key)
  {
    X.KeyAgreement(h.store, h.id, h.ops, h.initiatorDH, h.ephemeral);
    var a, b := h.InitiatorChains(), h.ResponderChains();
    var ska, skb := h.InitiatorSecret().value.sk, h.ResponderSecret().value;
    assert a.send.key.ikm[0] == ska && a.recv.key.ikm[0] == ska && b.send.key.ikm[0] == skb && b.recv.key.ikm[0] == skb;
  }

  lemma StartIsMirrored(h: Handshake, ida: MachineId, idb: MachineId, fa: Files, fb: Files)
    requires h.Valid() && h.Fresh()
    ensures h.InitiatorSecret().Ok? && h.ResponderSecret().Ok?
    ensures Start(h, ida, idb, fa, fb) == S.Start(ida, idb, fa, fb, Some(h.SessionKeys()))
  {
    HandshakeMirrors(h);
  }

  /** From the handshake on, in every run: each chain stands where the count of writes says, and the
      peer's next write decrypts, to what its author read from disk. */
  lemma HandshakeLockstep(h: Handshake, ida: MachineId, idb: MachineId, fa: Files, fb: Files, run: S.Run, x: S.Side)
    requires h.Valid() && h.Fresh() && ida != idb
    requires h.InitiatorSecret().Ok? && h.ResponderSecret().Ok?
    requires S.RunFrom(Start(h, ida, idb, fa, fb), run).Some?
    ensures var s := S.RunFrom(Start(h, ida, idb, fa, fb), run).value;
      && D.LocalChains(Some(h.SessionKeys()), s.log, x, s.Of(x))
      && (D.NextIsPeerWrite(s, x) ==>
            var ev := s.log[s.Of(x).cursor].ev;
            && Decrypted(s.Of(x).node, ev).Ok?
            && Decrypted(s.Of(x).node, ev).value.1 == ev.(data := Clear(D.PlainOf(ev)))
            && ev.hash == ContentHash(D.PlainOf(ev)))
  {
    StartIsMirrored(h, ida, idb, fa, fb);
    D.Lockstep(ida, idb, fa, fb, Some(h.SessionKeys()), run, x);
  }

  /** Where write `i` of the stream was sealed: its author's chain, and the position on it. */
  lemma SealedAt(h: Handshake, s: S.State, i: nat)
    requires h.InitiatorSecret().Ok? && D.ChainInv(Some(h.SessionKeys()), s)
    requires i < |s.log| && s.log[i].ev.Write?
    ensures s.log[i].ev.data.Cipher?
    ensures var c := ChainAt(h.SessionKeys().Root(s.log[i].author), S.WritesBy(s.log, s.log[i].author, i));
      s.log[i].ev.data.sealed.key == CipherKey(c.key) && s.log[i].ev.data.sealed.nonce == Nonce(c.key)
  {
    assert D.RecordSealed(Some(h.SessionKeys()), s.log, i);
  }

  /** The two directions of the session have different roots exactly when the key of the
      acknowledgement is not the signed prekey. */
  lemma DirectionsApart(h: Handshake)
    requires h.Valid() && h.InitiatorSecret().Ok?
    ensures h.SessionKeys().a == h.SessionKeys().b <==> h.reply == h.store.keys.signed.priv
    ensures IsRoot(h.SessionKeys().a) && IsRoot(h.SessionKeys().b)
  {
    var a, b := h.SessionKeys().a, h.SessionKeys().b;
    assert a.salt[0] == DH(h.ephemeral, PublicKey(h.store.keys.signed.priv));
    assert b.salt[0] == DH(h.ephemeral, PublicKey(h.reply));
    X.DHIdentifiesPair(h.ephemeral, h.store.keys.signed.priv, h.ephemeral, h.reply);
  }

  /** No two writes in the stream of such a session, by whichever end and however many, are sealed with
      the same AES key or the same nonce. */
  lemma StreamNeverReuses(h: Handshake, ida: MachineId, idb: MachineId, fa: Files, fb: Files, run: S.Run,
                          i: nat, j: nat)
    requires h.Valid() && h.Fresh() && ida != idb && h.reply != h.store.keys.signed.priv
    requires h.InitiatorSecret().Ok? && h.ResponderSecret().Ok?
    requires S.RunFrom(Start(h, ida, idb, fa, fb), run).Some?
    requires var log := S.RunFrom(Start(h, ida, idb, fa, fb), run).value.log;
      i < j < |log| && log[i].ev.Write? && log[j].ev.Write?
    ensures var log := S.RunFrom(Start(h, ida, idb, fa, fb), run).value.log;
      && log[i].ev.data.Cipher? && log[j].ev.data.Cipher?
      && log[i].ev.data.sealed.key != log[j].ev.data.sealed.key
      && log[i].ev.data.sealed.nonce != log[j].ev.data.sealed.nonce
  {
    var s := S.RunFrom(Start(h, ida, idb, fa, fb), run).value;
    var keys := h.SessionKeys();
    StartIsMirrored(h, ida, idb, fa, fb);
    S.StartCounts(ida, idb, fa, fb, Some(keys));
    D.RunChains(Some(keys), S.Start(ida, idb, fa, fb, Some(keys)), run);
    SealedAt(h, s, i);
    SealedAt(h, s, j);
    DirectionsApart(h);
    var x, y := s.log[i].author, s.log[j].author;
    if x == y {
      D.WritesByGrows(s.log, x, i, j);
    }
    KeysAndNoncesDistinct(keys.Root(x), S.WritesBy(s.log, x, i), keys.Root(y), S.WritesBy(s.log, y, j));
  }

  /** A write that comes a second time ends such a session in a decryption error. */
  lemma RedeliveryEndsSession(h: Handshake, ida: MachineId, idb: MachineId, fa: Files, fb: Files, run: S.Run,
                              x: S.Side, i: nat, now: nat)
    requires h.Valid() && h.Fresh() && ida != idb
    requires h.InitiatorSecret().Ok? && h.ResponderSecret().Ok?
    requires S.RunFrom(Start(h, ida, idb, fa, fb), run).Some?
    requires var s := S.RunFrom(Start(h, ida, idb, fa, fb), run).value;
      i < s.Of(x).cursor <= |s.log| && s.log[i].author == x.Other() && s.log[i].ev.Write?
    ensures var s := S.RunFrom(Start(h, ida, idb, fa, fb), run).value;
      var r := Received(s.Of(x).node, s.log[i].ev, now);
      r.Err? && r.error.Decryption?
  {
    var keys := h.SessionKeys();
    StartIsMirrored(h, ida, idb, fa, fb);
    S.StartCounts(ida, idb, fa, fb, Some(keys));
    S.RunCounts(S.Start(ida, idb, fa, fb, Some(keys)), run);
    D.RunChains(Some(keys), S.Start(ida, idb, fa, fb, Some(keys)), run);
    DirectionsApart(h);
    D.RedeliveredToLoop(Some(keys), S.RunFrom(Start(h, ida, idb, fa, fb), run).value, x, i, now);
  }

  /** And lockstep needs the prekey: the responder opens the initiator's first write exactly when the
      signed prekey has not been rotated in between. */
  lemma FirstWriteOpens(h: Handshake, ida: MachineId, idb: MachineId, fa: Files, fb: Files, p: Path)
    requires h.Valid() && ida != idb && p in fa
    requires h.InitiatorSecret().Ok? && h.ResponderSecret().Ok?
    ensures var s := Start(h, ida, idb, fa, fb);
      Decrypted(s.b.node, WriteEvent(s.a.node, p)).Ok? <==> h.Fresh()
  {
    HandshakeMirrors(h);
    var a, b := h.InitiatorChains(), h.ResponderChains();
    if CipherKey(a.send.key) == CipherKey(b.recv.key) {
      assert CipherKey(a.send.key).ikm[0] == a.send.key && CipherKey(b.recv.key).ikm[0] == b.recv.key;
    }
  }
}
