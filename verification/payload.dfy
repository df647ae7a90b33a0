/** The bytes of a handshake request that are signed (internal/handshake/protocol.go). */
module SignedPayloads {
  import opened Outcomes
  import opened Paths

  const NONCE_SIZE: nat := 16

  type Nonce = n: Content | |n| == NONCE_SIZE witness seq(NONCE_SIZE, i => 0 as Byte)

  /** The signed fields of a request. Integers are as the code holds them; strings are their bytes. */
  datatype Request = Request(version: int, unixNano: int, nonce: Nonce, machineID: Content, destPath: Content,
                             direction: int, encrypt: bool, publicKey: Content)

  // ---- Big-endian integers ----

  function Pow256(k: nat): (p: nat)
    ensures p > 0
  {
    if k == 0 then 1 else 256 * Pow256(k - 1)
  }

  /** The low `k` bytes of `v`, most significant first. Conversion to unsigned wraps. */
  function BigEndian(v: int, k: nat): Content
    decreases k
  {
    if k == 0 then [] else BigEndian(v / 256, k - 1) + [(v % 256) as Byte]
  }

  function Value(bytes: Content): nat {
    if bytes == [] then 0 else 256 * Value(bytes[..|bytes| - 1]) + bytes[|bytes| - 1] as int
  }

  lemma {:induction false} BigEndianValue(v: int, k: nat)
    ensures |BigEndian(v, k)| == k && Value(BigEndian(v, k)) == v % Pow256(k)
    decreases k
  {
    if k > 0 {
      BigEndianValue(v / 256, k - 1);
      LowBytes(v, Pow256(k - 1));
    }
  }

  lemma LowBytes(v: int, p: nat)
    requires p > 0
    ensures v % (256 * p) == 256 * (v / 256 % p) + v % 256
  {
    var q, r := v / 256 / p, v / 256 % p;
    assert v / 256 == q * p + r;
    assert v == q * (256 * p) + (256 * r + v % 256);
    RemainderUnique(v, 256 * p, q, 256 * r + v % 256);
  }

  lemma RemainderUnique(v: int, d: nat, q: int, r: int)
    requires d > 0 && v == q * d + r && 0 <= r < d
    ensures v % d == r
  {
    assert (v / d - q) * d == r - v % d;
    OnlyZeroIsSmall(v / d - q, d);
  }

  /** A multiple of `d` smaller than `d`, on either side, is zero. */
  lemma OnlyZeroIsSmall(x: int, d: int)
    requires d > 0 && -d < x * d < d
    ensures x == 0
  {
    if x != 0 {
      NonzeroIsLarge(x, d);
    }
  }

  lemma NonzeroIsLarge(x: int, d: int)
    requires x != 0 && d > 0
    ensures x * d >= d || x * d <= -d
  {
    if x > 0 {
      Grows(x, d);
    } else {
      Grows(-x, d);
      Negated(x, d);
    }
  }

  lemma Grows(x: int, d: int)
    requires x > 0 && d > 0
    ensures x * d >= d
  {
    assert x * d == (x - 1) * d + d;
  }

  lemma Negated(x: int, d: int)
    ensures (-x) * d == -(x * d)
  {
  }

  lemma {:induction false} ValueBigEndian(bytes: Content)
    ensures BigEndian(Value(bytes), |bytes|) == bytes && Value(bytes) < Pow256(|bytes|)
  {
    if bytes != [] {
      ValueBigEndian(bytes[..|bytes| - 1]);
      assert bytes == bytes[..|bytes| - 1] + [bytes[|bytes| - 1]];
    }
  }

  /** Equal bytes mean integers that agree modulo the width. */
  lemma SameBytesSameValue(a: int, b: int, k: nat)
    ensures BigEndian(a, k) == BigEndian(b, k) <==> a % Pow256(k) == b % Pow256(k)
  {
    BigEndianValue(a, k);
    BigEndianValue(b, k);
    ValueBigEndian(BigEndian(a, k));
    ValueBigEndian(BigEndian(b, k));
  }

  // ---- The payload ----

  /** A length-prefixed field. */
  function Prefixed(s: Content): Content {
    BigEndian(|s|, 4) + s
  }

  function Flag(b: bool): Content {
    [if b then 1 else 0]
  }

  function Payload(r: Request): Content {
    BigEndian(r.version, 4) + (BigEndian(r.unixNano, 8) + (r.nonce + (Prefixed(r.machineID)
    + (Prefixed(r.destPath) + (BigEndian(r.direction, 4) + (Flag(r.encrypt) + r.publicKey))))))
  }

  lemma Appended(buf: Content, x: Content, rest: Content)
    ensures buf + x + rest == buf + (x + rest)
  {
  }

  method SignedPayload(r: Request) returns (buf: Content)
    ensures buf == Payload(r)
  {
    ghost var b5 := BigEndian(r.direction, 4) + (Flag(r.encrypt) + r.publicKey);
    ghost var b4 := Prefixed(r.destPath) + b5;
    ghost var b3 := Prefixed(r.machineID) + b4;
    buf := BigEndian(r.version, 4);
    Appended(buf, BigEndian(r.unixNano, 8), r.nonce + b3);
    buf := buf + BigEndian(r.unixNano, 8);
    Appended(buf, r.nonce, b3);
    buf := buf + r.nonce;
    buf := AppendPrefixed(buf, r.machineID, b4);
    buf := AppendPrefixed(buf, r.destPath, b5);
    Appended(buf, BigEndian(r.direction, 4), Flag(r.encrypt) + r.publicKey);
    buf := buf + BigEndian(r.direction, 4);
    Appended(buf, Flag(r.encrypt), r.publicKey);
    if r.encrypt {
      buf := buf + [1];
    } else {
      buf := buf + [0];
    }
    buf := buf + r.publicKey;
  }

  method AppendPrefixed(buf: Content, s: Content, ghost rest: Content) returns (out: Content)
    ensures out == buf + Prefixed(s) && out + rest == buf + (Prefixed(s) + rest)
  {
    Appended(buf, Prefixed(s), rest);
    out := buf + BigEndian(|s|, 4);
    Appended(buf, BigEndian(|s|, 4), s);
    out := out + s;
  }

  // ---- Decoding ----

  /** The first `k` bytes, and the rest. */
  function Split(bytes: Content, k: nat): Option<(Content, Content)> {
    if |bytes| < k then None else Some((bytes[..k], bytes[k..]))
  }

  function SplitPrefixed(bytes: Content): Option<(Content, Content)> {
    match Split(bytes, 4)
    case None => None
    case Some((length, rest)) => Split(rest, Value(length))
  }

  function DecodeTail(bytes: Content): Option<(nat, bool, Content)> {
    match Split(bytes, 4)
    case None => None
    case Some((direction, rest)) =>
      if rest == [] || rest[0] > 1 then None else Some((Value(direction), rest[0] == 1, rest[1..]))
  }

  /** Reads the fields back, integers as unsigned. */
  function Decode(bytes: Content): Option<Request> {
    match Split(bytes, 4)
    case None => None
    case Some((version, b1)) =>
      match Split(b1, 8)
      case None => None
      case Some((time, b2)) =>
        match Split(b2, NONCE_SIZE)
        case None => None
        case Some((nonce, b3)) =>
          match SplitPrefixed(b3)
          case None => None
          case Some((machineID, b4)) =>
            match SplitPrefixed(b4)
            case None => None
            case Some((destPath, b5)) =>
              match DecodeTail(b5)
              case None => None
              case Some((direction, encrypt, key)) =>
                Some(Request(Value(version), Value(time), nonce, machineID, destPath, direction, encrypt, key))
  }

  /** The request with its integers as the payload holds them: unsigned, of 32 or 64 bits. */
  function Unsigned(r: Request): Request {
    r.(version := r.version % Pow256(4), unixNano := r.unixNano % Pow256(8), direction := r.direction % Pow256(4))
  }

  /** The lengths fit their 32-bit prefixes. */
  predicate LengthsFit(r: Request) {
    |r.machineID| < Pow256(4) && |r.destPath| < Pow256(4)
  }

  lemma SplitsBack(a: Content, b: Content)
    ensures Split(a + b, |a|) == Some((a, b))
  {
    assert (a + b)[..|a|] == a && (a + b)[|a|..] == b;
  }

  lemma SplitsPrefixed(s: Content, b: Content)
    requires |s| < Pow256(4)
    ensures SplitPrefixed(Prefixed(s) + b) == Some((s, b))
  {
    BigEndianValue(|s|, 4);
    assert Prefixed(s) + b == BigEndian(|s|, 4) + (s + b);
    SplitsBack(BigEndian(|s|, 4), s + b);
    SplitsBack(s, b);
  }

  lemma TailBack(direction: int, encrypt: bool, key: Content)
    ensures DecodeTail(BigEndian(direction, 4) + (Flag(encrypt) + key)) == Some((direction % Pow256(4), encrypt, key))
  {
    BigEndianValue(direction, 4);
    SplitsBack(BigEndian(direction, 4), Flag(encrypt) + key);
    assert (Flag(encrypt) + key)[1..] == key;
  }

  /** Every field is recovered. */
  lemma DecodesPayload(r: Request)
    requires LengthsFit(r)
    ensures Decode(Payload(r)) == Some(Unsigned(r))
  {
    var b5 := BigEndian(r.direction, 4) + (Flag(r.encrypt) + r.publicKey);
    var b4 := Prefixed(r.destPath) + b5;
    var b3 := Prefixed(r.machineID) + b4;
    var b2 := r.nonce + b3;
    var b1 := BigEndian(r.unixNano, 8) + b2;
    BigEndianValue(r.version, 4);
    BigEndianValue(r.unixNano, 8);
    SplitsBack(BigEndian(r.version, 4), b1);
    SplitsBack(BigEndian(r.unixNano, 8), b2);
    SplitsBack(r.nonce, b3);
    SplitsPrefixed(r.machineID, b4);
    SplitsPrefixed(r.destPath, b5);
    TailBack(r.direction, r.encrypt, r.publicKey);
  }

  lemma SplitJoins(bytes: Content, k: nat)
    requires Split(bytes, k).Some?
    ensures var (a, b) := Split(bytes, k).value; |a| == k && a + b == bytes && BigEndian(Value(a), k) == a
  {
    ValueBigEndian(bytes[..k]);
  }

  lemma PrefixedJoins(bytes: Content)
    requires SplitPrefixed(bytes).Some?
    ensures var (s, b) := SplitPrefixed(bytes).value; |s| < Pow256(4) && Prefixed(s) + b == bytes
  {
    SplitJoins(bytes, 4);
    var (length, rest) := Split(bytes, 4).value;
    ValueBigEndian(length);
    SplitJoins(rest, Value(length));
    var (s, b) := Split(rest, Value(length)).value;
    assert Prefixed(s) + b == length + (s + b);
  }

  lemma TailJoins(bytes: Content)
    requires DecodeTail(bytes).Some?
    ensures var (d, e, key) := DecodeTail(bytes).value; BigEndian(d, 4) + (Flag(e) + key) == bytes
  {
    SplitJoins(bytes, 4);
    var rest := Split(bytes, 4).value.1;
    assert rest == [rest[0]] + rest[1..];
  }

  /** Conversely, whatever decodes is the payload of what it decodes to: no two byte strings stand for
      the same request. */
  lemma PayloadDecoded(bytes: Content)
    requires Decode(bytes).Some?
    ensures LengthsFit(Decode(bytes).value) && Payload(Decode(bytes).value) == bytes
  {
    SplitJoins(bytes, 4);
    var b1 := Split(bytes, 4).value.1;
    SplitJoins(b1, 8);
    var b2 := Split(b1, 8).value.1;
    SplitJoins(b2, NONCE_SIZE);
    var b3 := Split(b2, NONCE_SIZE).value.1;
    PrefixedJoins(b3);
    var b4 := SplitPrefixed(b3).value.1;
    PrefixedJoins(b4);
    TailJoins(SplitPrefixed(b4).value.1);
  }

  /** Two requests sign the same bytes exactly when they agree on every field: nonce, machine id, path,
      encrypt flag and key outright, version and direction modulo 2^32, the instant modulo 2^64. */
  lemma SamePayloadSameRequest(r: Request, s: Request)
    requires LengthsFit(r) && LengthsFit(s)
    ensures Payload(r) == Payload(s) <==> Unsigned(r) == Unsigned(s)
  {
    DecodesPayload(r);
    DecodesPayload(s);
    SameBytesSameValue(r.version, s.version, 4);
    SameBytesSameValue(r.unixNano, s.unixNano, 8);
    SameBytesSameValue(r.direction, s.direction, 4);
  }

  /** In range, no modulus is left: the payload determines the request. */
  lemma InRangePayloadIsInjective(r: Request, s: Request)
    requires LengthsFit(r) && LengthsFit(s) && Payload(r) == Payload(s)
    requires InRange(r) && InRange(s)
    ensures r == s
  {
    SamePayloadSameRequest(r, s);
    SmallFields(r);
    SmallFields(s);
    SameInstant(r.unixNano, s.unixNano);
  }

  lemma SmallFields(r: Request)
    requires InRange(r)
    ensures Unsigned(r).version == r.version && Unsigned(r).direction == r.direction
  {
    Widths();
  }

  lemma SameInstant(a: int, b: int)
    requires -INT64 <= a < INT64 && -INT64 <= b < INT64 && a % Pow256(8) == b % Pow256(8)
    ensures a == b
  {
    Widths();
    CloseAndCongruent(a, b, Pow256(8));
  }

  const UINT32: int := 0x1_0000_0000
  const INT64: int := 0x8000_0000_0000_0000

  /** Version and direction in uint32 range, the instant in the range of UnixNano. */
  predicate InRange(r: Request) {
    0 <= r.version < UINT32 && 0 <= r.direction < UINT32 && -INT64 <= r.unixNano < INT64
  }

  lemma Widths()
    ensures Pow256(4) == UINT32 && Pow256(8) == 2 * INT64
  {
    assert Pow256(2) == 0x1_0000;
    assert Pow256(4) == 0x1_0000_0000;
    assert Pow256(6) == 0x1_0000_0000_0000;
  }

  lemma CloseAndCongruent(a: int, b: int, d: int)
    requires d > 0 && a % d == b % d && -d < a - b < d
    ensures a == b
  {
    assert a - b == (a / d - b / d) * d;
    OnlyZeroIsSmall(a / d - b / d, d);
  }
}
