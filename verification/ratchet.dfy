/** The symmetric-key ratchet (internal/crypto/ratchet/ratchet.go) over symbolic key material. */
module Ratchet {
  import opened Outcomes

  const UINT32: nat := 0x1_0000_0000

  datatype PublicKey = PublicKey(of: nat)

  /** Key material. `Shared` is an X25519 output, an unordered pair of private keys stored
      low to high; `Hkdf` is one slice of an HKDF output, a free constructor. */
  datatype Term =
    | Ones
    | Zeros
    | Shared(lo: nat, hi: nat)
    | Hkdf(ikm: seq<Term>, salt: seq<Term>, info: string, slice: nat)

  function DH(priv: nat, pub: PublicKey): Term {
    if priv <= pub.of then Shared(priv, pub.of) else Shared(pub.of, priv)
  }

  const INFO_ROOT_KEY := "DoubleRatchet-RootKey"
  const INFO_CHAIN_KEY := "DoubleRatchet-ChainKey"

  /** The chain-key half of KDF_RK: the DH output is the HKDF salt. */
  function KdfRK(rootKey: Term, dhOutput: Term): Term {
    Hkdf([rootKey], [dhOutput], INFO_ROOT_KEY, 1)
  }

  function NextKey(chainKey: Term): Term {
    Hkdf([chainKey], [], INFO_CHAIN_KEY, 0)
  }

  function CipherKey(chainKey: Term): Term {
    Hkdf([chainKey], [], INFO_CHAIN_KEY, 1)
  }

  function Nonce(chainKey: Term): Term {
    Hkdf([chainKey], [], INFO_CHAIN_KEY, 2)
  }

  /** An AES-GCM ciphertext with its tag. */
  datatype Sealed<AD, P> = Sealed(key: Term, nonce: Term, ad: AD, plain: P)

  datatype DecryptError = OutOfOrder | NotAuthentic

  /** The value of a chain: current chain key and next sequence number. */
  datatype ChainState = ChainState(key: Term, n: nat)

  function InitChain(sk: Term, dhPriv: nat, dhPub: PublicKey): ChainState {
    ChainState(KdfRK(sk, DH(dhPriv, dhPub)), 0)
  }

  function Advanced(c: ChainState): ChainState {
    ChainState(NextKey(c.key), (c.n + 1) % UINT32)
  }

  function Seal<AD, P>(c: ChainState, plain: P, ad: AD): Sealed<AD, P> {
    Sealed(CipherKey(c.key), Nonce(c.key), ad, plain)
  }

  /** Decrypt's answer; the chain advances only on success. */
  function Open<AD(==), P>(c: ChainState, s: Sealed<AD, P>, ad: AD, sequence: nat): Result<P, DecryptError> {
    if sequence != c.n then Err(OutOfOrder)
    else if s.key != CipherKey(c.key) || s.nonce != Nonce(c.key) || s.ad != ad then Err(NotAuthentic)
    else Ok(s.plain)
  }

  class Chain {
    var key: Term
    var n: nat

    constructor (state: ChainState)
      ensures State() == state
    {
      key, n := state.key, state.n;
    }

    function State(): ChainState
      reads this
    {
      ChainState(key, n)
    }

    method Encrypt<AD, P>(plaintext: P, associatedData: AD) returns (ciphertext: Sealed<AD, P>, sequence: nat)
      modifies this
      ensures State() == Advanced(old(State()))
      ensures sequence == old(n) && ciphertext == Seal(old(State()), plaintext, associatedData)
    {
      var cipherKey, nonce := CipherKey(key), Nonce(key);
      sequence := n;
      key := NextKey(key);
      n := (n + 1) % UINT32;
      ciphertext := Sealed(cipherKey, nonce, associatedData, plaintext);
    }

    method Decrypt<AD(==), P>(ciphertext: Sealed<AD, P>, associatedData: AD, sequence: nat)
      returns (r: Result<P, DecryptError>)
      modifies this
      ensures r == Open(old(State()), ciphertext, associatedData, sequence)
      ensures State() == if r.Ok? then Advanced(old(State())) else old(State())
    {
      if sequence != n {
        return Err(OutOfOrder);
      }
      if ciphertext.key != CipherKey(key) || ciphertext.nonce != Nonce(key) || ciphertext.ad != associatedData {
        return Err(NotAuthentic);
      }
      key := NextKey(key);
      n := (n + 1) % UINT32;
      return Ok(ciphertext.plain);
    }
  }

  // ---- The chain over any number of messages ----

  /** The chain after `i` messages from chain key `root`. */
  function ChainAt(root: Term, i: nat): ChainState {
    if i == 0 then ChainState(root, 0) else Advanced(ChainAt(root, i - 1))
  }

  /** What KDF_RK yields; no chain key further along has this form. */
  predicate IsRoot(t: Term) {
    t.Hkdf? && t.info == INFO_ROOT_KEY
  }

  lemma {:induction false} ChainKeysDistinct(r1: Term, i: nat, r2: Term, j: nat)
    requires IsRoot(r1) && IsRoot(r2)
    ensures ChainAt(r1, i).key == ChainAt(r2, j).key <==> r1 == r2 && i == j
  {
    assert INFO_ROOT_KEY[14] != INFO_CHAIN_KEY[14];
    if i > 0 && j > 0 {
      ChainKeysDistinct(r1, i - 1, r2, j - 1);
      var a, b := ChainAt(r1, i - 1).key, ChainAt(r2, j - 1).key;
      assert ChainAt(r1, i).key == ChainAt(r2, j).key <==> a == b by {
        assert NextKey(a).ikm[0] == a && NextKey(b).ikm[0] == b;
      }
    }
  }

  /** Two encryptions use the same AES key or the same nonce only if they are the same position
      of the same chain, however far the chains run (the 32-bit counter wraps, the keys do not). */
  lemma {:induction false} KeysAndNoncesDistinct(r1: Term, i: nat, r2: Term, j: nat)
    requires IsRoot(r1) && IsRoot(r2)
    ensures CipherKey(ChainAt(r1, i).key) == CipherKey(ChainAt(r2, j).key) <==> r1 == r2 && i == j
    ensures Nonce(ChainAt(r1, i).key) == Nonce(ChainAt(r2, j).key) <==> r1 == r2 && i == j
  {
    ChainKeysDistinct(r1, i, r2, j);
    var a, b := ChainAt(r1, i).key, ChainAt(r2, j).key;
    assert CipherKey(a).ikm[0] == a && CipherKey(b).ikm[0] == b;
    assert Nonce(a).ikm[0] == a && Nonce(b).ikm[0] == b;
  }

  /** A chain opens exactly what was sealed at its own position with the same associated data; anything else is
      refused, out of order or not authentic. */
  lemma OpensExactlyWhatWasSealed<AD, P>(c: ChainState, s: Sealed<AD, P>, ad: AD, sequence: nat)
    ensures Open(c, s, ad, sequence).Ok? <==> sequence == c.n && s == Seal(c, s.plain, ad)
    ensures Open(c, s, ad, sequence).Ok? ==> Open(c, s, ad, sequence).value == s.plain
    ensures Open(c, s, ad, sequence).Err? ==>
      Open(c, s, ad, sequence).error == if sequence != c.n then OutOfOrder else NotAuthentic
  {
  }

  /** A chain starts at 0 from the second half of KDF_RK, salted with the DH output; and two chains start alike
      exactly when secret and DH output are the same. */
  lemma RootIsMadeOf(sk: Term, priv: nat, pub: PublicKey, sk': Term, priv': nat, pub': PublicKey)
    ensures var c := InitChain(sk, priv, pub);
      && c == ChainState(Hkdf([sk], [DH(priv, pub)], "DoubleRatchet-RootKey", 1), 0) && IsRoot(c.key)
      && (c == InitChain(sk', priv', pub') <==> sk == sk' && DH(priv, pub) == DH(priv', pub'))
  {
    var c, d := InitChain(sk, priv, pub).key, InitChain(sk', priv', pub').key;
    assert c == d ==> c.ikm[0] == d.ikm[0] && c.salt[0] == d.salt[0];
  }

  /** The three outputs of KDF_CK: the next chain key, the AES key and the nonce, in this order. */
  lemma MaterialIsMadeOf(chainKey: Term)
    ensures NextKey(chainKey) == Hkdf([chainKey], [], "DoubleRatchet-ChainKey", 0)
    ensures CipherKey(chainKey) == NextKey(chainKey).(slice := 1) && Nonce(chainKey) == NextKey(chainKey).(slice := 2)
  {
  }

  /** Chain keys, AES keys and nonces are never one and the same, and none of them is a root. */
  lemma MaterialApart(a: Term, b: Term, c: Term)
    ensures NextKey(a) != CipherKey(b) && CipherKey(b) != Nonce(c) && NextKey(a) != Nonce(c)
    ensures !IsRoot(NextKey(a)) && !IsRoot(CipherKey(b)) && !IsRoot(Nonce(c))
  {
    assert INFO_ROOT_KEY[14] != INFO_CHAIN_KEY[14];
  }

  lemma {:induction false} ChainCounter(root: Term, i: nat)
    ensures ChainAt(root, i).n == i % 0x1_0000_0000
  {
    if i > 0 {
      ChainCounter(root, i - 1);
    }
  }

  /** A receiver at position `j` of a chain accepts the sender's message `i` exactly when `i == j`,
      and then recovers the plaintext. */
  lemma {:induction false} OpensExactlyInOrder<AD, P>(root: Term, i: nat, j: nat, plain: P, ad: AD)
    requires IsRoot(root)
    ensures var sent := Seal(ChainAt(root, i), plain, ad);
      var r := Open(ChainAt(root, j), sent, ad, ChainAt(root, i).n);
      && (r.Ok? <==> i == j)
      && (i == j ==> r == Ok(plain))
  {
    KeysAndNoncesDistinct(root, i, root, j);
  }
}
