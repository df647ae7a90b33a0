/** Chunked transfer (internal/pipeline/chunk.go): split, sequence, encrypt, reassemble. */
module Chunks {
  import opened Outcomes
  import opened Paths
  import opened Ratchet

  const DEFAULT_CHUNK_SIZE: nat := 512 * 1024

  type AssociatedData = (nat, nat)

  /** The bootstrap headers that ride chunk 0 of an encrypted transfer. */
  datatype BootstrapHeaders = BootstrapHeaders(dhPub: PublicKey, ephemeralPub: PublicKey, usedOTPID: nat)

  /** The payload of a message; `Ciphertext` carries the header Encrypted: true. */
  datatype Data = Plaintext(bytes: Content) | Ciphertext(sealed: Sealed<AssociatedData, Content>)

  /** A message: None stands for a missing or invalid header, and 0 total bytes for an absent one. */
  datatype Message = Message(sequence: Option<int>, isFinal: bool, bootstrap: Option<BootstrapHeaders>,
                             totalBytes: int, data: Data)

  datatype Encryption = Encryption(chain: Chain, ad: AssociatedData, bootstrap: BootstrapHeaders)

  datatype SendError = ReadFailed | Diverged | PublishFailed

  datatype ReceiveError =
    | BadSequenceHeader | OutOfSequence | NoWayToDerive | BadBootstrap | NoChain | Undecryptable
    | PipeClosed | AckFailed | NothingArrived

  // ---- What the sender emits ----

  function BlockSize(chunkSize: int): (size: nat)
    ensures size > 0 && (chunkSize > 0 ==> size == chunkSize) && (chunkSize <= 0 ==> size == 512 * 1024)
  {
    if chunkSize <= 0 then DEFAULT_CHUNK_SIZE else chunkSize
  }

  /** The blocks of a stream read `size` bytes at a time, up to and including the first short read. */
  function Blocks(data: Content, size: nat): seq<Content>
    requires size > 0
  {
    if |data| < size then [data] else [data[..size]] + Blocks(data[size..], size)
  }

  function Flatten(blocks: seq<Content>): Content {
    if blocks == [] then [] else blocks[0] + Flatten(blocks[1..])
  }

  /** A stream of n bytes makes n / size + 1 blocks: full ones, and one short, possibly empty, last. */
  lemma {:induction false} BlocksCut(data: Content, size: nat)
    requires size > 0
    ensures Flatten(Blocks(data, size)) == data
    ensures |Blocks(data, size)| == |data| / size + 1
    ensures forall i :: 0 <= i < |Blocks(data, size)| ==>
      if i < |data| / size then |Blocks(data, size)[i]| == size else |Blocks(data, size)[i]| < size
  {
    if |data| >= size {
      var rest := data[size..];
      BlocksCut(rest, size);
      QuotientStep(|data|, size);
      assert Blocks(data, size)[1..] == Blocks(rest, size);
      assert data[..size] + rest == data;
    } else {
      assert Blocks(data, size)[1..] == [];
    }
  }

  lemma QuotientStep(n: nat, size: nat)
    requires 0 < size <= n
    ensures n / size == (n - size) / size + 1
  {
    var q := (n - size) / size;
    assert (q + 1) * size == q * size + size;
    QuotientUnique(n, size, q + 1);
  }

  lemma QuotientUnique(n: nat, size: nat, q: nat)
    requires size > 0 && q * size <= n < q * size + size
    ensures n / size == q
  {
    var a := n / size;
    if a > q {
      Multiples(q, a, size);
    } else if a < q {
      Multiples(a, q, size);
    }
  }

  lemma Multiples(a: nat, b: nat, size: nat)
    requires a < b
    ensures a * size + size <= b * size
  {
    assert b * size == (b - a - 1) * size + (a * size + size);
  }

  /** The key of a transfer: the chain key it starts from, and what both ends know. */
  datatype Secret = Secret(root: Term, ad: AssociatedData, bootstrap: BootstrapHeaders)

  function Chunk(blocks: seq<Content>, i: nat, secret: Option<Secret>, totalBytes: int): Message
    requires i < |blocks|
  {
    Message(Some(i), i == |blocks| - 1,
            if i == 0 && secret.Some? then Some(secret.value.bootstrap) else None,
            if i == 0 && totalBytes > 0 then totalBytes else 0,
            if secret.None? then Plaintext(blocks[i])
            else Ciphertext(Seal(ChainAt(secret.value.root, i), blocks[i], secret.value.ad)))
  }

  function ChunksOf(blocks: seq<Content>, secret: Option<Secret>, totalBytes: int): seq<Message> {
    seq(|blocks|, i requires 0 <= i < |blocks| => Chunk(blocks, i, secret, totalBytes))
  }

  /** The messages of a transfer. */
  function Messages(data: Content, size: nat, secret: Option<Secret>, totalBytes: int): seq<Message>
    requires size > 0
  {
    ChunksOf(Blocks(data, size), secret, totalBytes)
  }

  /** The headers of a transfer: numbers in order, the last chunk marked final and no other, and the
      bootstrap keys and the announced size on the first chunk and no other. */
  lemma HeadersOfTransfer(data: Content, size: nat, secret: Option<Secret>, totalBytes: int, i: nat)
    requires size > 0 && i < |Messages(data, size, secret, totalBytes)|
    ensures var m := Messages(data, size, secret, totalBytes)[i];
      && m.sequence == Some(i) && (m.isFinal <==> i == |data| / size)
      && (m.bootstrap.Some? <==> i == 0 && secret.Some?)
      && (m.bootstrap.Some? ==> m.bootstrap.value == secret.value.bootstrap)
      && (m.totalBytes != 0 <==> i == 0 && totalBytes > 0) && (m.totalBytes != 0 ==> m.totalBytes == totalBytes)
  {
    BlocksCut(data, size);
  }

  /** How many of `count` chunks can be sent: what the reader yields, what the ratchet can number,
      what the broker accepts. */
  function Sendable(count: nat, broken: bool, n: Option<nat>, accepted: nat): nat
    requires count > 0
  {
    var read := if broken then count - 1 else count;
    var numbered := if n.None? then read else if n.value == 0 then UINT32 else 0;
    var k := if numbered < read then numbered else read;
    if accepted < k then accepted else k
  }

  /** `k` chunks were sent, and `error` is what stopped the sender. */
  predicate StopsAt(k: nat, count: nat, broken: bool, n: Option<nat>, accepted: nat, error: Option<SendError>)
    requires count > 0
  {
    && k == Sendable(count, broken, n, accepted)
    && (error.None? <==> k == count)
    && (error == Some(ReadFailed) <==> broken && k == count - 1)
    && (error == Some(PublishFailed) ==> k == accepted)
    && (error == Some(Diverged) ==> n.Some? && k == if n.value == 0 then UINT32 else 0)
  }

  ghost predicate SentSoFar(sent: seq<Message>, blocks: seq<Content>, secret: Option<Secret>, totalBytes: int) {
    |sent| <= |blocks| && forall j :: 0 <= j < |sent| ==> sent[j] == Chunk(blocks, j, secret, totalBytes)
  }

  /** `sent` is the longest prefix of the transfer that can be sent. */
  ghost predicate SendsWhatItCan(data: Content, size: nat, broken: bool, secret: Option<Secret>, n: Option<nat>,
                                 totalBytes: int, accepted: nat, sent: seq<Message>, error: Option<SendError>)
    requires size > 0
  {
    && StopsAt(|sent|, |data| / size + 1, broken, n, accepted, error)
    && sent <= Messages(data, size, secret, totalBytes)
  }

  lemma Stopped(data: Content, size: nat, broken: bool, secret: Option<Secret>, n: Option<nat>,
                totalBytes: int, accepted: nat, sent: seq<Message>, error: Option<SendError>)
    requires size > 0 && SentSoFar(sent, Blocks(data, size), secret, totalBytes)
    requires Blocks(data, size) != [] && StopsAt(|sent|, |Blocks(data, size)|, broken, n, accepted, error)
    ensures SendsWhatItCan(data, size, broken, secret, n, totalBytes, accepted, sent, error)
  {
    BlocksCut(data, size);
  }

  /** The reader's next block, with `rest` still unread. */
  lemma NextBlock(blocks: seq<Content>, rest: Content, size: nat, i: nat)
    requires size > 0 && i < |blocks| && Blocks(rest, size) == blocks[i..]
    ensures |rest| < size <==> i == |blocks| - 1
    ensures blocks[i] == if |rest| < size then rest else rest[..size]
    ensures |rest| >= size ==> Blocks(rest[size..], size) == blocks[i + 1..]
  {
    if |rest| >= size {
      assert Blocks(rest, size)[1..] == Blocks(rest[size..], size);
      BlocksCut(rest[size..], size);
    }
  }

  function SecretOf(enc: Option<Encryption>): Option<Secret>
    reads if enc.Some? then {enc.value.chain} else {}
  {
    if enc.None? then None else Some(Secret(enc.value.chain.key, enc.value.ad, enc.value.bootstrap))
  }

  function CounterOf(enc: Option<Encryption>): Option<nat>
    reads if enc.Some? then {enc.value.chain} else {}
  {
    if enc.None? then None else Some(enc.value.chain.n)
  }

  /** The payload of chunk `i`: as read, or encrypted, if the ratchet stands at `i`. */
  method SealChunk(enc: Option<Encryption>, payload: Content, i: nat) returns (r: Result<Data, SendError>)
    modifies if enc.Some? then {enc.value.chain} else {}
    ensures r.Ok? <==> enc.None? || old(enc.value.chain.n) == i
    ensures r.Ok? ==> r.value == if enc.None? then Plaintext(payload)
                                 else Ciphertext(Seal(old(enc.value.chain.State()), payload, enc.value.ad))
    ensures r.Err? ==> r.error == Diverged
    ensures enc.Some? ==> enc.value.chain.State() == Advanced(old(enc.value.chain.State()))
  {
    if enc.None? {
      return Ok(Plaintext(payload));
    }
    var ciphertext, chainSeq := enc.value.chain.Encrypt(payload, enc.value.ad);
    return if chainSeq != i then Err(Diverged) else Ok(Ciphertext(ciphertext));
  }

  /** A ratchet that started at `c` and has sealed `i` chunks in step with them. */
  predicate InStep(c: ChainState, i: nat, now: ChainState) {
    (if c.n == 0 then now == ChainAt(c.key, i) else i == 0 && now == c) && i <= UINT32
  }

  lemma StaysInStep(c: ChainState, i: nat, now: ChainState)
    requires InStep(c, i, now) && c.n < UINT32
    ensures now.n == i <==> c.n == 0 && i < UINT32
    ensures now.n == i ==> now.key == ChainAt(c.key, i).key && InStep(c, i + 1, Advanced(now))
  {
    ChainCounter(c.key, i);
  }

  /** Whether the ratchet, if there is one, can have numbered `i` chunks, and whether it can one more. */
  predicate Numbered(n: Option<nat>, i: nat) {
    n.Some? ==> if n.value == 0 then i <= UINT32 else i == 0
  }

  predicate Numbers(n: Option<nat>, i: nat) {
    n.Some? ==> n.value == 0 && i < UINT32
  }

  lemma SentOne(sent: seq<Message>, m: Message, blocks: seq<Content>, secret: Option<Secret>, totalBytes: int)
    requires SentSoFar(sent, blocks, secret, totalBytes) && |sent| < |blocks|
    requires m == Chunk(blocks, |sent|, secret, totalBytes)
    ensures SentSoFar(sent + [m], blocks, secret, totalBytes)
  {
  }

  lemma ReaderStops(data: Content, size: nat, secret: Option<Secret>, n: Option<nat>, totalBytes: int,
                    accepted: nat, sent: seq<Message>)
    requires size > 0 && SentSoFar(sent, Blocks(data, size), secret, totalBytes) && Numbered(n, |sent|)
    requires |sent| == |Blocks(data, size)| - 1 && |sent| <= accepted
    ensures SendsWhatItCan(data, size, true, secret, n, totalBytes, accepted, sent, Some(ReadFailed))
  {
    Stopped(data, size, true, secret, n, totalBytes, accepted, sent, Some(ReadFailed));
  }

  lemma RatchetStops(data: Content, size: nat, broken: bool, secret: Option<Secret>, n: Option<nat>, totalBytes: int,
                     accepted: nat, sent: seq<Message>)
    requires size > 0 && SentSoFar(sent, Blocks(data, size), secret, totalBytes) && Numbered(n, |sent|)
    requires |sent| < |Blocks(data, size)| && |sent| <= accepted && !(broken && |sent| == |Blocks(data, size)| - 1)
    requires !Numbers(n, |sent|)
    ensures SendsWhatItCan(data, size, broken, secret, n, totalBytes, accepted, sent, Some(Diverged))
  {
    Stopped(data, size, broken, secret, n, totalBytes, accepted, sent, Some(Diverged));
  }

  lemma BrokerStops(data: Content, size: nat, broken: bool, secret: Option<Secret>, n: Option<nat>, totalBytes: int,
                    sent: seq<Message>)
    requires size > 0 && SentSoFar(sent, Blocks(data, size), secret, totalBytes) && Numbers(n, |sent|)
    requires |sent| < |Blocks(data, size)| && !(broken && |sent| == |Blocks(data, size)| - 1)
    ensures SendsWhatItCan(data, size, broken, secret, n, totalBytes, |sent|, sent, Some(PublishFailed))
  {
    Stopped(data, size, broken, secret, n, totalBytes, |sent|, sent, Some(PublishFailed));
  }

  lemma NothingStops(data: Content, size: nat, secret: Option<Secret>, n: Option<nat>, totalBytes: int,
                     accepted: nat, sent: seq<Message>)
    requires size > 0 && SentSoFar(sent, Blocks(data, size), secret, totalBytes) && sent != []
    requires |sent| == |Blocks(data, size)| && |sent| <= accepted && Numbers(n, |sent| - 1)
    ensures SendsWhatItCan(data, size, false, secret, n, totalBytes, accepted, sent, None)
  {
    Stopped(data, size, false, secret, n, totalBytes, accepted, sent, None);
  }

  /** Sends the stream `r`, which ends in an error if `broken`, over a broker that accepts `accepted`
      messages. It sends the longest prefix of the transfer that can be sent. */
  method PublishArchive(r: Content, broken: bool, chunkSize: int, enc: Option<Encryption>, totalBytes: int,
                        accepted: nat) returns (sent: seq<Message>, error: Option<SendError>)
    requires enc.Some? ==> enc.value.chain.n < UINT32
    modifies if enc.Some? then {enc.value.chain} else {}
    ensures SendsWhatItCan(r, BlockSize(chunkSize), broken, old(SecretOf(enc)), old(CounterOf(enc)), totalBytes,
                           accepted, sent, error)
    ensures error.None? && enc.Some? ==>
      enc.value.chain.State() == ChainAt(old(enc.value.chain.key), |sent|)
  {
    var size, rest, i := BlockSize(chunkSize), r, 0;
    ghost var secret, n, blocks := SecretOf(enc), CounterOf(enc), Blocks(r, size);
    ghost var start := if enc.Some? then enc.value.chain.State() else ChainState(Ones, 0);
    assert blocks[0..] == blocks;
    sent := [];
    while true
      invariant i == |sent| < |blocks| && i <= accepted && Blocks(rest, size) == blocks[i..]
      invariant SentSoFar(sent, blocks, secret, totalBytes) && Numbered(n, i)
      invariant enc.Some? ==> InStep(start, i, enc.value.chain.State())
      decreases |blocks| - i
    {
      NextBlock(blocks, rest, size, i);
      var isFinal := |rest| < size;
      if isFinal && broken {
        ReaderStops(r, size, secret, n, totalBytes, accepted, sent);
        return sent, Some(ReadFailed);
      }
      var payload := if isFinal then rest else rest[..size];
      if enc.Some? {
        StaysInStep(start, i, enc.value.chain.State());
      }
      var data := SealChunk(enc, payload, i);
      if data.Err? {
        RatchetStops(r, size, broken, secret, n, totalBytes, accepted, sent);
        return sent, Some(Diverged);
      }
      var message := Message(Some(i), isFinal, if i == 0 && enc.Some? then Some(enc.value.bootstrap) else None,
                             if i == 0 && totalBytes > 0 then totalBytes else 0, data.value);
      if i >= accepted {
        BrokerStops(r, size, broken, secret, n, totalBytes, sent);
        return sent, Some(PublishFailed);
      }
      SentOne(sent, message, blocks, secret, totalBytes);
      sent := sent + [message];
      if isFinal {
        NothingStops(r, size, secret, n, totalBytes, accepted, sent);
        return sent, None;
      }
      rest := rest[size..];
      i := i + 1;
    }
  }

  // ---- What the receiver makes of what it is given ----

  /** A callback that derives the receiving chain from chunk 0; None is its error. */
  type Derive = BootstrapHeaders -> Option<ChainState>

  /** The next sequence number the receiver wants, and its chain once there is one. */
  datatype Receiver = Receiver(want: nat, chain: Option<ChainState>)

  /** One message: the receiver after it and the bytes for the pipe. */
  function Take(r: Receiver, m: Message, ad: AssociatedData, derive: Option<Derive>):
    Result<(Receiver, Content), ReceiveError>
  {
    if m.sequence.None? then Err(BadSequenceHeader)
    else if m.sequence.value != r.want then Err(OutOfSequence)
    else if m.data.Plaintext? then Ok((r.(want := r.want + 1), m.data.bytes))
    else if r.want == 0 && derive.None? then Err(NoWayToDerive)
    else if r.want == 0 && (m.bootstrap.None? || derive.value(m.bootstrap.value).None?) then Err(BadBootstrap)
    else
      var chain := if r.want == 0 then derive.value(m.bootstrap.value) else r.chain;
      if chain.None? then Err(NoChain)
      else
        match Open(chain.value, m.data.sealed, ad, r.want % UINT32)
        case Err(_) => Err(Undecryptable)
        case Ok(plain) => Ok((Receiver(r.want + 1, Some(Advanced(chain.value))), plain))
  }

  /** The bytes the receiver hands to the pipe, and its error, if the messages that come are
      `delivered`, the pipe takes `taken` chunks and `acked` acknowledgements succeed. */
  function Reassembled(r: Receiver, delivered: seq<Message>, ad: AssociatedData, derive: Option<Derive>,
                       taken: nat, acked: nat): (Content, Option<ReceiveError>)
    decreases |delivered|
  {
    if delivered == [] then ([], Some(NothingArrived))
    else
      match Take(r, delivered[0], ad, derive)
      case Err(e) => ([], Some(e))
      case Ok((next, payload)) =>
        if r.want >= taken then ([], Some(PipeClosed))
        else if r.want >= acked then (payload, Some(AckFailed))
        else if delivered[0].isFinal then (payload, None)
        else
          var (rest, error) := Reassembled(next, delivered[1..], ad, derive, taken, acked);
          (payload + rest, error)
  }

  function StateOf(chain: Chain?): Option<ChainState>
    reads chain
  {
    if chain == null then None else Some(chain.State())
  }

  /** The payload of the message that is wanted, with the chain that opens it. */
  method OpenMessage(message: Message, wantSeq: nat, chain: Chain?, ad: AssociatedData, derive: Option<Derive>)
    returns (payload: Result<Content, ReceiveError>, used: Chain?)
    modifies chain
    ensures used == chain || (used != null && fresh(used))
    ensures match Take(Receiver(wantSeq, old(StateOf(chain))), message, ad, derive)
      case Err(e) => payload == Err(e)
      case Ok((next, bytes)) => payload == Ok(bytes) && next == Receiver(wantSeq + 1, StateOf(used))
  {
    used := chain;
    if message.sequence.None? {
      return Err(BadSequenceHeader), used;
    }
    if message.sequence.value != wantSeq {
      return Err(OutOfSequence), used;
    }
    if message.data.Plaintext? {
      return Ok(message.data.bytes), used;
    }
    if wantSeq == 0 {
      if derive.None? {
        return Err(NoWayToDerive), used;
      }
      var derived := if message.bootstrap.None? then None else derive.value(message.bootstrap.value);
      if derived.None? {
        return Err(BadBootstrap), used;
      }
      used := new Chain(derived.value);
    }
    if used == null {
      return Err(NoChain), used;
    }
    var plain := used.Decrypt(message.data.sealed, ad, wantSeq % UINT32);
    payload := if plain.Ok? then Ok(plain.value) else Err(Undecryptable);
  }

  /** A message taken and acknowledged that is not the last: what is out moves on by its payload. */
  lemma GoesOn(r: Receiver, delivered: seq<Message>, i: nat, ad: AssociatedData, derive: Option<Derive>,
               taken: nat, acked: nat, out: Content)
    requires i < |delivered| && Take(r, delivered[i], ad, derive).Ok?
    requires r.want < taken && r.want < acked && !delivered[i].isFinal
    ensures var (next, payload) := Take(r, delivered[i], ad, derive).value;
      var before := Reassembled(r, delivered[i..], ad, derive, taken, acked);
      var after := Reassembled(next, delivered[i + 1..], ad, derive, taken, acked);
      out + before.0 == out + payload + after.0 && before.1 == after.1
  {
    assert delivered[i..][0] == delivered[i] && delivered[i..][1..] == delivered[i + 1..];
  }

  method ReceiveLoop(delivered: seq<Message>, ad: AssociatedData, derive: Option<Derive>, taken: nat, acked: nat)
    returns (out: Content, error: Option<ReceiveError>)
    ensures out == Reassembled(Receiver(0, None), delivered, ad, derive, taken, acked).0
    ensures error == Reassembled(Receiver(0, None), delivered, ad, derive, taken, acked).1
  {
    var wantSeq, chain: Chain?, i := 0, null, 0;
    out := [];
    ghost var whole := Reassembled(Receiver(0, None), delivered, ad, derive, taken, acked);
    while i < |delivered|
      invariant i <= |delivered| && (chain != null ==> fresh(chain))
      invariant var rest := Reassembled(Receiver(wantSeq, StateOf(chain)), delivered[i..], ad, derive, taken, acked);
        whole.0 == out + rest.0 && whole.1 == rest.1
    {
      var message := delivered[i];
      ghost var r := Receiver(wantSeq, StateOf(chain));
      assert delivered[i..][0] == message && out + [] == out;
      var payload;
      payload, chain := OpenMessage(message, wantSeq, chain, ad, derive);
      if payload.Err? {
        return out, Some(payload.error);
      }
      if wantSeq >= taken {
        return out, Some(PipeClosed);
      }
      out := out + payload.value;
      if wantSeq >= acked {
        return out, Some(AckFailed);
      }
      if message.isFinal {
        return out, None;
      }
      GoesOn(r, delivered, i, ad, derive, taken, acked, out[..|out| - |payload.value|]);
      wantSeq := wantSeq + 1;
      i := i + 1;
    }
    assert delivered[i..] == [] && out + [] == out;
    return out, Some(NothingArrived);
  }

  // ---- Round trip and prefix safety ----

  /** The receiver has taken exactly the first `k` messages of the transfer. */
  predicate HasTaken(r: Receiver, secret: Option<Secret>, k: nat) {
    r.want == k && (secret.Some? && k > 0 ==> r.chain == Some(ChainAt(secret.value.root, k)))
  }

  /** Of all messages of the transfer, the receiver can take only the one it wants; it takes that one
      when its chain is the sender's. */
  lemma TakesOnlyNext(r: Receiver, blocks: seq<Content>, i: nat, secret: Option<Secret>, totalBytes: int,
                      ad: AssociatedData, derive: Option<Derive>)
    requires i < |blocks| && HasTaken(r, secret, r.want)
    ensures var m := Chunk(blocks, i, secret, totalBytes);
      && (Take(r, m, ad, derive).Ok? ==>
            i == r.want && Take(r, m, ad, derive).value.1 == blocks[i]
            && HasTaken(Take(r, m, ad, derive).value.0, secret, i + 1))
      && (i == r.want && Matches(secret, ad, derive) ==> Take(r, m, ad, derive).Ok?)
  {
    if secret.Some? {
      ChainCounter(secret.value.root, i);
      if i == 0 && derive.Some? && derive.value(secret.value.bootstrap).Some? {
        var c := derive.value(secret.value.bootstrap).value;
        assert CipherKey(c.key).ikm[0] == c.key && CipherKey(secret.value.root).ikm[0] == secret.value.root;
        if Take(r, Chunk(blocks, i, secret, totalBytes), ad, derive).Ok? {
          assert c == ChainAt(secret.value.root, 0);
        }
      }
    }
  }

  /** An encrypted chunk cannot join a transfer that began in the clear, and no chunk is taken without a
      number, or under another number than the one that is wanted. */
  lemma NotTaken(r: Receiver, m: Message, ad: AssociatedData, derive: Option<Derive>)
    ensures m.sequence != Some(r.want) ==>
      Take(r, m, ad, derive) == Err(if m.sequence.None? then BadSequenceHeader else OutOfSequence)
    ensures m.sequence == Some(r.want) && r.want > 0 && r.chain.None? && m.data.Ciphertext? ==>
      Take(r, m, ad, derive) == Err(NoChain)
  {
  }

  /** The receiver derives the sender's chain, with the same associated data. */
  predicate Matches(secret: Option<Secret>, ad: AssociatedData, derive: Option<Derive>) {
    secret.Some? ==>
      && ad == secret.value.ad && derive.Some?
      && derive.value(secret.value.bootstrap) == Some(ChainState(secret.value.root, 0))
  }

  /** Every message given is one of those sent; any may be missing, repeated or out of order. */
  ghost predicate DrawnFrom(delivered: seq<Message>, sent: seq<Message>) {
    forall i :: 0 <= i < |delivered| ==> delivered[i] in sent
  }

  lemma WhichChunk(m: Message, blocks: seq<Content>, secret: Option<Secret>, totalBytes: int) returns (i: nat)
    requires m in ChunksOf(blocks, secret, totalBytes)
    ensures i < |blocks| && m == Chunk(blocks, i, secret, totalBytes)
  {
    i :| 0 <= i < |blocks| && m == ChunksOf(blocks, secret, totalBytes)[i];
  }

  lemma FlattenFrom(blocks: seq<Content>, i: nat)
    requires i < |blocks|
    ensures Flatten(blocks[i..]) == blocks[i] + Flatten(blocks[i + 1..])
    ensures i == |blocks| - 1 ==> Flatten(blocks[i..]) == blocks[i]
  {
    assert blocks[i..][1..] == blocks[i + 1..];
  }

  lemma {:induction false} ReassembledFrom(r: Receiver, delivered: seq<Message>, blocks: seq<Content>,
                                           secret: Option<Secret>, totalBytes: int, ad: AssociatedData,
                                           derive: Option<Derive>, taken: nat, acked: nat)
    requires r.want < |blocks| && HasTaken(r, secret, r.want)
    requires DrawnFrom(delivered, ChunksOf(blocks, secret, totalBytes))
    ensures var (out, error) := Reassembled(r, delivered, ad, derive, taken, acked);
      out <= Flatten(blocks[r.want..]) && (error.None? ==> out == Flatten(blocks[r.want..]))
    decreases |delivered|
  {
    if delivered != [] {
      var i := WhichChunk(delivered[0], blocks, secret, totalBytes);
      TakesOnlyNext(r, blocks, i, secret, totalBytes, ad, derive);
      FlattenFrom(blocks, r.want);
      if Take(r, delivered[0], ad, derive).Ok? && i < |blocks| - 1 {
        ReassembledFrom(Take(r, delivered[0], ad, derive).value.0, delivered[1..], blocks, secret, totalBytes,
                        ad, derive, taken, acked);
      }
    }
  }

  /** Prefix safety: whatever the network drops, repeats or reorders, and whatever chain the receiver
      derives, what reaches the pipe is a prefix of what was sent, and all of it if the receiver
      reports no error. */
  lemma PrefixSafety(delivered: seq<Message>, data: Content, size: nat, secret: Option<Secret>, totalBytes: int,
                     ad: AssociatedData, derive: Option<Derive>, taken: nat, acked: nat)
    requires size > 0 && DrawnFrom(delivered, Messages(data, size, secret, totalBytes))
    ensures var (out, error) := Reassembled(Receiver(0, None), delivered, ad, derive, taken, acked);
      out <= data && (error.None? ==> out == data)
  {
    BlocksCut(data, size);
    ReassembledFrom(Receiver(0, None), delivered, Blocks(data, size), secret, totalBytes, ad, derive, taken, acked);
    assert Blocks(data, size)[0..] == Blocks(data, size);
  }

  lemma {:induction false} TakesAll(r: Receiver, delivered: seq<Message>, blocks: seq<Content>,
                                    secret: Option<Secret>, totalBytes: int, ad: AssociatedData,
                                    derive: Option<Derive>, taken: nat, acked: nat)
    requires r.want < |blocks| && HasTaken(r, secret, r.want)
    requires Matches(secret, ad, derive) && ChunksOf(blocks, secret, totalBytes)[r.want..] <= delivered
    requires |blocks| <= taken && |blocks| <= acked
    ensures Reassembled(r, delivered, ad, derive, taken, acked).1.None?
    decreases |blocks| - r.want
  {
    var sent := ChunksOf(blocks, secret, totalBytes);
    assert delivered[0] == sent[r.want..][0] == sent[r.want];
    TakesOnlyNext(r, blocks, r.want, secret, totalBytes, ad, derive);
    if r.want < |blocks| - 1 {
      assert sent[r.want + 1..] <= delivered[1..] by {
        assert sent[r.want..][1..] == sent[r.want + 1..];
      }
      TakesAll(Take(r, delivered[0], ad, derive).value.0, delivered[1..], blocks, secret, totalBytes, ad, derive,
               taken, acked);
    }
  }

  lemma PrefixStep<T>(s: seq<T>, i: nat, t: seq<T>)
    requires i < |s| && t != [] && t[0] == s[i] && s[i + 1..] <= t[1..]
    ensures s[i..] <= t
  {
    assert s[i..] == [s[i]] + s[i + 1..];
    assert t == [t[0]] + t[1..];
  }

  /** Success takes every message still wanted, in order, and as many writes and acknowledgements. */
  lemma {:induction false} SuccessNeedsAll(r: Receiver, delivered: seq<Message>, blocks: seq<Content>,
                                           secret: Option<Secret>, totalBytes: int, ad: AssociatedData,
                                           derive: Option<Derive>, taken: nat, acked: nat)
    requires r.want < |blocks| && HasTaken(r, secret, r.want)
    requires DrawnFrom(delivered, ChunksOf(blocks, secret, totalBytes))
    ensures Reassembled(r, delivered, ad, derive, taken, acked).1.None? ==>
      && ChunksOf(blocks, secret, totalBytes)[r.want..] <= delivered
      && |blocks| <= taken && |blocks| <= acked
    decreases |delivered|
  {
    var sent := ChunksOf(blocks, secret, totalBytes);
    if delivered != [] {
      var i := WhichChunk(delivered[0], blocks, secret, totalBytes);
      TakesOnlyNext(r, blocks, i, secret, totalBytes, ad, derive);
      if Take(r, delivered[0], ad, derive).Ok? && i < |blocks| - 1 {
        SuccessNeedsAll(Take(r, delivered[0], ad, derive).value.0, delivered[1..], blocks, secret, totalBytes,
                        ad, derive, taken, acked);
        if Reassembled(r, delivered, ad, derive, taken, acked).1.None? {
          PrefixStep(sent, i, delivered);
        }
      }
    }
  }

  /** The round trip, for any stream and any chunk size: with matching chains, the receiver reports
      success exactly when the messages arrive in order and none is missing, the pipe takes them all
      and every acknowledgement succeeds; and what it then has read is what was sent. */
  lemma RoundTrip(delivered: seq<Message>, data: Content, size: nat, secret: Option<Secret>, totalBytes: int,
                  ad: AssociatedData, derive: Option<Derive>, taken: nat, acked: nat)
    requires size > 0 && Matches(secret, ad, derive)
    requires DrawnFrom(delivered, Messages(data, size, secret, totalBytes))
    ensures var (out, error) := Reassembled(Receiver(0, None), delivered, ad, derive, taken, acked);
      var n := |data| / size + 1;
      && (error.None? <==> Messages(data, size, secret, totalBytes) <= delivered && n <= taken && n <= acked)
      && (error.None? ==> out == data)
  {
    BlocksCut(data, size);
    PrefixSafety(delivered, data, size, secret, totalBytes, ad, derive, taken, acked);
    SuccessNeedsAll(Receiver(0, None), delivered, Blocks(data, size), secret, totalBytes, ad, derive, taken, acked);
    var all := Messages(data, size, secret, totalBytes);
    assert all[0..] == all;
    if all <= delivered && |all| <= taken && |all| <= acked {
      TakesAll(Receiver(0, None), delivered, Blocks(data, size), secret, totalBytes, ad, derive, taken, acked);
    }
  }
}
