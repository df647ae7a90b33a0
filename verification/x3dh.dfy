/** X3DH over symbolic key material (internal/crypto/x3dh/x3dh.go), and the two chains of a
    watch session (cmd/jsync/main.go, internal/daemon/watch_session.go). */
module X3DH {
  import opened Outcomes
  import opened Ratchet
  import opened PreKeys

  const INFO_SK := "X3DH-Signal"

  datatype DeriveError = MissingKeys | BadSignature | UnknownOneTimePreKey

  /** The initiator's result: the shared secret, its ephemeral key, and the one-time id used. */
  datatype Initiated = Initiated(sk: Term, ephemeral: nat, usedOTPID: nat)

  /** HKDF over a run of 0xFF bytes and the DH outputs, with a zero salt. */
  function DeriveSK(dhOutputs: seq<Term>): Term {
    Hkdf([Ones] + dhOutputs, [Zeros], INFO_SK, 0)
  }

  predicate Verifies(identity: nat, key: PublicKey, s: Signature) {
    s == Signature(identity, key)
  }

  /** DeriveInitiator; `ephemeral` is the key pair it generates. */
  function DeriveInitiator(identityDH: nat, ephemeral: nat, b: Bundle): Result<Initiated, DeriveError> {
    if b.identityDHKey.None? || b.signedPreKey.None? then Err(MissingKeys)
    else if !Verifies(b.identityKey, b.signedPreKey.value, b.signature) then Err(BadSignature)
    else
      var dhs := [DH(identityDH, b.signedPreKey.value), DH(ephemeral, b.identityDHKey.value),
                  DH(ephemeral, b.signedPreKey.value)];
      if b.oneTimePreKey.Some?
      then Ok(Initiated(DeriveSK(dhs + [DH(ephemeral, b.oneTimePreKey.value)]), ephemeral, b.oneTimePreKeyID))
      else Ok(Initiated(DeriveSK(dhs), ephemeral, 0))
  }

  /** deriveResponder: an id that is not pending is refused, 0 means none was used. */
  function DeriveResponder(k: Keys, initiatorDH: PublicKey, ephemeral: PublicKey, usedOTPID: nat)
    : Result<Term, DeriveError>
  {
    if usedOTPID != 0 && usedOTPID !in k.pending then Err(UnknownOneTimePreKey)
    else
      var dhs := [DH(k.signed.priv, initiatorDH), DH(k.identityDH, ephemeral), DH(k.signed.priv, ephemeral)];
      Ok(DeriveSK(if usedOTPID != 0 then dhs + [DH(k.pending[usedOTPID], ephemeral)] else dhs))
  }

  /** DeriveResponderChains on a store: it spends the one-time prekey, and only that. */
  method DeriveResponderChains(s: Store, initiatorDH: PublicKey, ephemeral: PublicKey, usedOTPID: nat)
    returns (r: Result<(Term, ChainState), DeriveError>)
    modifies s
    ensures r.Ok? <==> DeriveResponder(old(s.keys), initiatorDH, ephemeral, usedOTPID).Ok?
    ensures r.Ok? ==> r.value.0 == DeriveResponder(old(s.keys), initiatorDH, ephemeral, usedOTPID).value
    ensures r.Ok? ==> r.value.1 == InitChain(r.value.0, old(s.keys).signed.priv, ephemeral)
    ensures s.keys == if r.Ok? && usedOTPID != 0 then Consumed(old(s.keys), usedOTPID) else old(s.keys)
  {
    var signed := s.keys.signed.priv;
    var otp: Option<nat> := None;
    if usedOTPID != 0 {
      if usedOTPID !in s.keys.pending {
        return Err(UnknownOneTimePreKey);
      }
      otp := Some(s.keys.pending[usedOTPID]);
      s.keys := s.keys.(pending := s.keys.pending - {usedOTPID});
    }
    var material := [DH(signed, initiatorDH), DH(s.keys.identityDH, ephemeral), DH(signed, ephemeral)];
    if otp.Some? {
      material := material + [DH(otp.value, ephemeral)];
    }
    var sk := DeriveSK(material);
    return Ok((sk, InitChain(sk, signed, ephemeral)));
  }

  // ---- Key agreement ----

  /** Both ends compute the same DH output, and an output names its two key pairs. */
  lemma DHSymmetric(a: nat, b: nat)
    ensures DH(a, PublicKey(b)) == DH(b, PublicKey(a))
  {
  }

  lemma DHIdentifiesPair(a: nat, b: nat, c: nat, d: nat)
    ensures DH(a, PublicKey(b)) == DH(c, PublicKey(d)) <==> (a == c && b == d) || (a == d && b == c)
  {
  }

  /** What a run of the store may do to a bundle's one-time prekey before the responder's half:
      neither drop it in a restart nor spend it. Without one there is nothing to keep. */
  predicate Leaves(ops: seq<Op>, id: nat) {
    id != 0 ==> forall i :: 0 <= i < |ops| ==> ops[i] != Restart && ops[i] != Respond(id)
  }

  lemma {:induction false} PendingSurvives(l: Life, ops: seq<Op>, id: nat)
    requires id != 0 && Leaves(ops, id) && Kept(l, ops) && RunInv(l) && id in l.keys.pending
    ensures id in RunFrom(l, ops).keys.pending && RunFrom(l, ops).keys.pending[id] == l.keys.pending[id]
    ensures RunFrom(l, ops).keys.identityDH == l.keys.identityDH
  {
    if ops != [] {
      PendingSurvives(l, ops[..|ops| - 1], id);
      PreKeyLifeCycle(l, ops[..|ops| - 1]);
    }
  }

  lemma {:induction false} IdentityKept(l: Life, ops: seq<Op>)
    requires l.disk.identity == l.keys.identity && l.disk.identityDH == l.keys.identityDH
    ensures RunFrom(l, ops).keys.identity == RunFrom(l, ops).disk.identity == l.keys.identity
    ensures RunFrom(l, ops).keys.identityDH == RunFrom(l, ops).disk.identityDH == l.keys.identityDH
  {
    if ops != [] {
      IdentityKept(l, ops[..|ops| - 1]);
    }
  }

  /** What the responder's half finds of the keys behind a bundle. */
  predicate StillHas(later: Keys, k: Keys, id: nat) {
    later.identityDH == k.identityDH
    && (id != 0 ==> id in k.otps && id in later.pending && later.pending[id] == k.otps[id])
  }

  lemma KeysSurvive(l: Life, id: nat, ops: seq<Op>)
    requires RunInv(l) && (id == 0 || id in l.keys.otps)
    requires Kept(After(l, TakeBundle(id)), ops) && Leaves(ops, id)
    ensures StillHas(RunFrom(After(l, TakeBundle(id)), ops).keys, l.keys, id)
  {
    assert !InRange(0, l.keys);
    var l1 := After(l, TakeBundle(id));
    if id != 0 {
      IssueKeeps(l, id);
      PendingSurvives(l1, ops, id);
    } else {
      IdentityKept(l1, ops);
    }
  }

  lemma SecretsAgree(k: Keys, later: Keys, id: nat, initiatorDH: nat, ephemeral: nat)
    requires SignsOwn(k) && StillHas(later, k, id) && 0 !in k.otps
    ensures var i := DeriveInitiator(initiatorDH, ephemeral, BundleWith(k, id));
      && i.Ok? && i.value.usedOTPID == id
      && var r := DeriveResponder(later, PublicKey(initiatorDH), PublicKey(ephemeral), id);
      && r.Ok? && (r.value == i.value.sk <==> later.signed.priv == k.signed.priv)
  {
    var i := DeriveInitiator(initiatorDH, ephemeral, BundleWith(k, id)).value;
    var r := DeriveResponder(later, PublicKey(initiatorDH), PublicKey(ephemeral), id).value;
    assert i.sk.ikm[1] == DH(initiatorDH, PublicKey(k.signed.priv));
    assert r.ikm[1] == DH(later.signed.priv, PublicKey(initiatorDH));
  }

  /** From a bundle request to the responder's half, over any run of the store in between, with or
      without a one-time prekey: both ends succeed, and they derive the same secret exactly when
      the signed prekey is still the one in the bundle. */
  lemma KeyAgreement(l: Life, id: nat, ops: seq<Op>, initiatorDH: nat, ephemeral: nat)
    requires RunInv(l) && (id == 0 || id in l.keys.otps)
    requires Kept(After(l, TakeBundle(id)), ops) && Leaves(ops, id)
    ensures var b := BundleWith(l.keys, id);
      var later := RunFrom(After(l, TakeBundle(id)), ops).keys;
      var i := DeriveInitiator(initiatorDH, ephemeral, b);
      && i.Ok? && i.value.usedOTPID == id
      && var r := DeriveResponder(later, PublicKey(initiatorDH), PublicKey(ephemeral), i.value.usedOTPID);
      && r.Ok? && (r.value == i.value.sk <==> later.signed.priv == l.keys.signed.priv)
  {
    KeysSurvive(l, id, ops);
    assert !InRange(0, l.keys);
    SecretsAgree(l.keys, RunFrom(After(l, TakeBundle(id)), ops).keys, id, initiatorDH, ephemeral);
  }

  /** A one-time prekey serves one initiation: once it is spent, its id is refused. */
  lemma SpentIsRefused(l: Life, id: nat, initiatorDH: PublicKey, ephemeral: PublicKey)
    requires RunInv(l) && id in l.keys.pending
    ensures DeriveResponder(l.keys, initiatorDH, ephemeral, id).Ok?
    ensures var t := After(l, Respond(id));
      && DeriveResponder(t.keys, initiatorDH, ephemeral, id) == Err(UnknownOneTimePreKey)
      && id in t.consumed && After(t, Respond(id)) == t
  {
    assert id != 0;
  }

  /** From a first boot on, whatever the store goes through, an initiator accepts every bundle it hands
      out, and takes over the one-time id it names. */
  lemma EveryBundleIsAccepted(identity: nat, identityDH: nat, signed: nat, ops: seq<Op>, id: nat,
                              initiatorDH: nat, ephemeral: nat)
    requires Kept(Born(identity, identityDH, signed), ops)
    requires id == 0 || id in RunFrom(Born(identity, identityDH, signed), ops).keys.otps
    ensures var k := RunFrom(Born(identity, identityDH, signed), ops).keys;
      var i := DeriveInitiator(initiatorDH, ephemeral, BundleWith(k, id));
      && i.Ok? && i.value.usedOTPID == id && i.value.ephemeral == ephemeral
      && BundleWith(k, id).identityKey == identity && BundleWith(k, id).identityDHKey == Some(PublicKey(identityDH))
  {
    IdentityKept(Born(identity, identityDH, signed), ops);
    BornInv(identity, identityDH, signed);
    PreKeyLifeCycle(Born(identity, identityDH, signed), ops);
    var k := RunFrom(Born(identity, identityDH, signed), ops).keys;
    assert !InRange(0, k);
  }

  /** And no bundle with a signature by another identity, or over another key. */
  lemma ForeignSignatureIsRefused(b: Bundle, initiatorDH: nat, ephemeral: nat)
    requires b.identityDHKey.Some? && b.signedPreKey.Some?
    ensures DeriveInitiator(initiatorDH, ephemeral, b).Ok?
            <==> b.signature.signer == b.identityKey && b.signature.over == b.signedPreKey.value
    ensures DeriveInitiator(initiatorDH, ephemeral, b).Err? ==>
      DeriveInitiator(initiatorDH, ephemeral, b).error == BadSignature
  {
  }

  // ---- What a secret depends on ----

  lemma SecretIdentifiesInputs(a: seq<Term>, b: seq<Term>)
    ensures DeriveSK(a) == DeriveSK(b) <==> a == b
  {
    assert DeriveSK(a).ikm[1..] == a && DeriveSK(b).ikm[1..] == b;
  }

  /** What goes into the secret, as sections 2.2 and 3.3 of the X3DH specification have it: the 0xFF prefix,
      DH1 to DH3, and DH4 exactly if there is a one-time prekey; a zero salt and the application's name. */
  lemma SecretIsMadeOf(identityDH: nat, ephemeral: nat, b: Bundle)
    requires DeriveInitiator(identityDH, ephemeral, b).Ok?
    ensures var sk := DeriveInitiator(identityDH, ephemeral, b).value.sk;
      var n := |sk.ikm|;
      && sk.Hkdf? && sk.salt == [Zeros] && sk.info == "X3DH-Signal" && sk.slice == 0
      && n == (if b.oneTimePreKey.Some? then 5 else 4) && sk.ikm[0] == Ones
      && sk.ikm[1] == DH(identityDH, b.signedPreKey.value) && sk.ikm[2] == DH(ephemeral, b.identityDHKey.value)
      && sk.ikm[3] == DH(ephemeral, b.signedPreKey.value)
      && (b.oneTimePreKey.Some? ==> sk.ikm[4] == DH(ephemeral, b.oneTimePreKey.value))
  {
  }

  /** The secret is no chain key, message key or nonce of any chain. */
  lemma SecretIsNoChainKey(dhs: seq<Term>, root: Term, i: nat)
    requires IsRoot(root)
    ensures DeriveSK(dhs) != ChainAt(root, i).key
    ensures DeriveSK(dhs) != CipherKey(ChainAt(root, i).key) && DeriveSK(dhs) != Nonce(ChainAt(root, i).key)
  {
    assert |INFO_SK| != |INFO_ROOT_KEY| && |INFO_SK| != |INFO_CHAIN_KEY|;
  }

  /** Two initiations for one bundle have the same secret exactly when identity and ephemeral are the same. */
  lemma InitiationsDiffer(b: Bundle, id1: nat, eph1: nat, id2: nat, eph2: nat)
    requires DeriveInitiator(id1, eph1, b).Ok? && DeriveInitiator(id2, eph2, b).Ok?
    ensures DeriveInitiator(id1, eph1, b).value.sk == DeriveInitiator(id2, eph2, b).value.sk
            <==> id1 == id2 && eph1 == eph2
  {
    var s, t := DeriveInitiator(id1, eph1, b).value.sk, DeriveInitiator(id2, eph2, b).value.sk;
    SecretIsMadeOf(id1, eph1, b);
    SecretIsMadeOf(id2, eph2, b);
    assert s == t ==> s.ikm[1] == t.ikm[1] && s.ikm[3] == t.ikm[3];
  }

  /** One initiation with two bundles: the same secret exactly when the identity key, the signed prekey and
      the one-time prekey, or its absence, are the same. */
  lemma BundlesDiffer(b1: Bundle, b2: Bundle, identityDH: nat, ephemeral: nat)
    requires DeriveInitiator(identityDH, ephemeral, b1).Ok? && DeriveInitiator(identityDH, ephemeral, b2).Ok?
    ensures DeriveInitiator(identityDH, ephemeral, b1).value.sk == DeriveInitiator(identityDH, ephemeral, b2).value.sk
            <==> b1.identityDHKey == b2.identityDHKey && b1.signedPreKey == b2.signedPreKey
                 && b1.oneTimePreKey == b2.oneTimePreKey
  {
    var s := DeriveInitiator(identityDH, ephemeral, b1).value.sk;
    var t := DeriveInitiator(identityDH, ephemeral, b2).value.sk;
    SecretIsMadeOf(identityDH, ephemeral, b1);
    SecretIsMadeOf(identityDH, ephemeral, b2);
    assert s == t ==> |s.ikm| == |t.ikm| && s.ikm[2] == t.ikm[2] && s.ikm[3] == t.ikm[3];
    assert s == t && |s.ikm| == 5 ==> s.ikm[4] == t.ikm[4];
  }

  /** A responder with any keys gets the initiator's secret exactly when its signed prekey, its identity key
      and its private key for the one-time id are those behind the bundle. */
  lemma OnlyTheBundlesOwnerAgrees(k: Keys, other: Keys, id: nat, initiatorDH: nat, ephemeral: nat)
    requires SignsOwn(k) && (id == 0 || id in k.otps) && 0 !in k.otps && (id == 0 || id in other.pending)
    ensures var i := DeriveInitiator(initiatorDH, ephemeral, BundleWith(k, id));
      var r := DeriveResponder(other, PublicKey(initiatorDH), PublicKey(ephemeral), id);
      && i.Ok? && r.Ok?
      && (r.value == i.value.sk <==>
            && other.signed.priv == k.signed.priv && other.identityDH == k.identityDH
            && (id != 0 ==> other.pending[id] == k.otps[id]))
  {
    var i := DeriveInitiator(initiatorDH, ephemeral, BundleWith(k, id)).value.sk;
    var r := DeriveResponder(other, PublicKey(initiatorDH), PublicKey(ephemeral), id).value;
    SecretIsMadeOf(initiatorDH, ephemeral, BundleWith(k, id));
    assert r.ikm[1] == DH(other.signed.priv, PublicKey(initiatorDH));
    assert r.ikm[2] == DH(other.identityDH, PublicKey(ephemeral));
    assert r.ikm[3] == DH(other.signed.priv, PublicKey(ephemeral));
    if id != 0 {
      assert r.ikm[4] == DH(other.pending[id], PublicKey(ephemeral));
    }
    assert r == i <==> r.ikm == i.ikm;
  }

  /** An id that is not pending is refused, and only such an id. */
  lemma RefusedExactlyUnknown(k: Keys, initiatorDH: PublicKey, ephemeral: PublicKey, id: nat)
    ensures var r := DeriveResponder(k, initiatorDH, ephemeral, id);
      (r.Err? <==> id != 0 && id !in k.pending) && (r.Err? ==> r.error == UnknownOneTimePreKey)
  {
  }

  // ---- The two chains of a watch session ----

  datatype Direction = ToResponder | ToInitiator

  /** The private keys behind a watch session: the initiator's ephemeral, the responder's signed
      prekey, and the ratchet key the responder generates for its own sending chain. */
  datatype Session = Session(sk: Term, ephemeral: nat, signed: nat, reply: nat)

  /** The sender's initial chain in each direction. */
  function SendChain(s: Session, d: Direction): ChainState {
    match d
    case ToResponder => InitChain(s.sk, s.ephemeral, PublicKey(s.signed))
    case ToInitiator => InitChain(s.sk, s.reply, PublicKey(s.ephemeral))
  }

  /** The receiver's initial chain in each direction. */
  function RecvChain(s: Session, d: Direction): ChainState {
    match d
    case ToResponder => InitChain(s.sk, s.signed, PublicKey(s.ephemeral))
    case ToInitiator => InitChain(s.sk, s.ephemeral, PublicKey(s.reply))
  }

  lemma ChainsMirror(s: Session, d: Direction)
    ensures SendChain(s, d) == RecvChain(s, d) && IsRoot(SendChain(s, d).key)
  {
  }

  /** The chain key behind encryption number `i` in direction `d`. */
  function KeyAt(s: Session, d: Direction, i: nat): Term {
    ChainAt(SendChain(s, d).key, i).key
  }

  /** Encryptions that share an AES key or a nonce are one and the same encryption. */
  ghost predicate NeverReuses(s: Session) {
    forall d1: Direction, i: nat, d2: Direction, j: nat ::
      CipherKey(KeyAt(s, d1, i)) == CipherKey(KeyAt(s, d2, j)) || Nonce(KeyAt(s, d1, i)) == Nonce(KeyAt(s, d2, j))
      ==> d1 == d2 && i == j
  }

  /** No two encryptions in either direction of a watch session share an AES key or a nonce,
      and that is so exactly because the responder's ratchet key is not its signed prekey. */
  lemma NoKeyOrNonceReuse(s: Session)
    ensures NeverReuses(s) <==> s.reply != s.signed
  {
    var a, b := SendChain(s, ToResponder).key, SendChain(s, ToInitiator).key;
    assert a == b <==> s.reply == s.signed by {
      assert a.salt[0] == DH(s.ephemeral, PublicKey(s.signed)) && b.salt[0] == DH(s.reply, PublicKey(s.ephemeral));
    }
    if s.reply != s.signed {
      forall d1: Direction, i: nat, d2: Direction, j: nat
        | CipherKey(KeyAt(s, d1, i)) == CipherKey(KeyAt(s, d2, j)) || Nonce(KeyAt(s, d1, i)) == Nonce(KeyAt(s, d2, j))
        ensures d1 == d2 && i == j
      {
        KeysAndNoncesDistinct(SendChain(s, d1).key, i, SendChain(s, d2).key, j);
      }
    } else {
      assert KeyAt(s, ToResponder, 0) == KeyAt(s, ToInitiator, 0);
      assert CipherKey(KeyAt(s, ToResponder, 0)) == CipherKey(KeyAt(s, ToInitiator, 0));
    }
  }
}
