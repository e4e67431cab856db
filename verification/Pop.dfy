/** The proof of possession a client attaches to a refresh: the bytes both sides build, and the fixed-width
    signature encoding (as in section 3.4 of RFC 7518). */
module Pop {
  import opened Codec

  type Byte = x: int | 0 <= x < 256

  const Skew: int := 90 * 1_000_000_000   // nanoseconds
  const TwoTo64: int := 0x1_0000_0000_0000_0000

  // ------------------------------------------------------------------ big-endian numbers

  /** SetBytes: the number a byte string denotes. */
  function FromBytes(b: seq<Byte>): nat {
    if b == [] then 0 else 256 * FromBytes(b[..|b| - 1]) + b[|b| - 1]
  }

  /** Bytes: the shortest byte string that denotes a number. */
  function Minimal(n: nat): (b: seq<Byte>)
    ensures b != [] ==> b[0] != 0
  {
    if n == 0 then [] else Minimal(n / 256) + [n % 256]
  }

  function Pow256(k: nat): nat {
    if k == 0 then 1 else 256 * Pow256(k - 1)
  }

  lemma {:induction false} MinimalDenotes(n: nat)
    ensures FromBytes(Minimal(n)) == n
  {
    if n > 0 {
      MinimalDenotes(n / 256);
      assert Minimal(n)[..|Minimal(n)| - 1] == Minimal(n / 256);
    }
  }

  lemma {:induction false} MinimalFits(n: nat, k: nat)
    requires n < Pow256(k)
    ensures |Minimal(n)| <= k
  {
    if n > 0 {
      MinimalFits(n / 256, k - 1);
    }
  }

  function Zeros(k: nat): seq<Byte> {
    seq(k, _ => 0)
  }

  lemma {:induction false} LeadingZeros(k: nat, b: seq<Byte>)
    ensures FromBytes(Zeros(k) + b) == FromBytes(b)
    decreases |b|, k
  {
    var p := Zeros(k) + b;
    if b == [] {
      assert p == Zeros(k);
      if k > 0 {
        assert Zeros(k)[..k - 1] == Zeros(k - 1) && Zeros(k - 1) + [] == Zeros(k - 1);
        LeadingZeros(k - 1, []);
      }
    } else {
      assert p[..|p| - 1] == Zeros(k) + b[..|b| - 1];
      LeadingZeros(k, b[..|b| - 1]);
    }
  }

  /** Strings of one length denote one number only if they are equal. */
  lemma {:induction false} FixedWidthInjective(a: seq<Byte>, b: seq<Byte>)
    requires |a| == |b| && FromBytes(a) == FromBytes(b)
    ensures a == b
  {
    if a != [] {
      FixedWidthInjective(a[..|a| - 1], b[..|b| - 1]);
      assert a == a[..|a| - 1] + [a[|a| - 1]] && b == b[..|b| - 1] + [b[|b| - 1]];
    }
  }

  // ------------------------------------------------------------------ the signature

  function LeftPad(n: nat): seq<Byte>
    requires n < Pow256(32)
    ensures |LeftPad(n)| == 32
  {
    MinimalFits(n, 32);
    Zeros(32 - |Minimal(n)|) + Minimal(n)
  }

  lemma PaddedDenotes(n: nat)
    requires n < Pow256(32)
    ensures FromBytes(LeftPad(n)) == n
  {
    MinimalFits(n, 32);
    LeadingZeros(32 - |Minimal(n)|, Minimal(n));
    MinimalDenotes(n);
  }

  /** copy(buffer[at:], b) */
  method CopyInto(buffer: array<Byte>, at: nat, b: seq<Byte>)
    requires at + |b| <= buffer.Length
    modifies buffer
    ensures buffer[..] == old(buffer[..at]) + b + old(buffer[at + |b|..])
  {
    for i := 0 to |b|
      invariant buffer[..at] == old(buffer[..at]) && buffer[at + |b|..] == old(buffer[at + |b|..])
      invariant buffer[at..at + i] == b[..i]
    {
      buffer[at + i] := b[i];
      assert buffer[at..at + i + 1] == buffer[at..at + i] + [b[i]];
    }
    assert buffer[at..at + |b|] == b;
    assert buffer[..] == buffer[..at] + buffer[at..at + |b|] + buffer[at + |b|..];
  }

  /** The tail of signRefreshPoP and SignP1363: r and s right-aligned in the halves of 64 zero bytes. */
  method EncodeSignature(r: nat, s: nat) returns (sig: seq<Byte>)
    requires r < Pow256(32) && s < Pow256(32)
    ensures sig == LeftPad(r) + LeftPad(s) && |sig| == 64
    ensures FromBytes(sig[..32]) == r && FromBytes(sig[32..]) == s
  {
    MinimalFits(r, 32);
    MinimalFits(s, 32);
    var rb, sb := Minimal(r), Minimal(s);
    var buffer := new Byte[64](_ => 0);
    assert buffer[..] == Zeros(64);
    CopyInto(buffer, 32 - |rb|, rb);
    assert buffer[..] == LeftPad(r) + Zeros(32);
    CopyInto(buffer, 64 - |sb|, sb);
    assert buffer[..] == LeftPad(r) + LeftPad(s);
    sig := buffer[..];
    PaddedDenotes(r);
    PaddedDenotes(s);
    assert sig[..32] == LeftPad(r) && sig[32..] == LeftPad(s);
  }

  /** Splitting at 32 recovers both numbers, and a 64-byte signature encodes only one pair. */
  lemma SignatureRoundTrip(r: nat, s: nat, r': nat, s': nat)
    requires r < Pow256(32) && s < Pow256(32) && r' < Pow256(32) && s' < Pow256(32)
    ensures FromBytes((LeftPad(r) + LeftPad(s))[..32]) == r && FromBytes((LeftPad(r) + LeftPad(s))[32..]) == s
    ensures LeftPad(r) + LeftPad(s) == LeftPad(r') + LeftPad(s') ==> r == r' && s == s'
  {
    PaddedDenotes(r);
    PaddedDenotes(s);
    PaddedDenotes(r');
    PaddedDenotes(s');
    var a, b := LeftPad(r) + LeftPad(s), LeftPad(r') + LeftPad(s');
    assert a[..32] == LeftPad(r) && a[32..] == LeftPad(s) && b[..32] == LeftPad(r') && b[32..] == LeftPad(s');
  }

  // ------------------------------------------------------------------ the message

  function Ascii(s: string): seq<Byte> {
    seq(|s|, i requires 0 <= i < |s| => s[i] as int % 256)
  }

  const DOMAIN := "spawnery/refresh-pop/v1"

  function BigEndian(u: nat, k: nat): (b: seq<Byte>)
    ensures |b| == k
  {
    if k == 0 then [] else BigEndian(u / 256, k - 1) + [u % 256]
  }

  /** PutUint64 of the two's complement of a 64-bit integer. */
  function Be64(n: int): seq<Byte> {
    BigEndian(n % TwoTo64, 8)
  }

  /** domain, token hash, timestamp, nonce: what the client signs and the server checks. */
  function Message(hash: seq<Byte>, timestamp: int, nonce: seq<Byte>): seq<Byte> {
    Ascii(DOMAIN) + hash + Be64(timestamp) + nonce
  }

  lemma {:induction false} BigEndianDenotes(u: nat, k: nat)
    requires u < Pow256(k)
    ensures FromBytes(BigEndian(u, k)) == u
  {
    if k > 0 {
      BigEndianDenotes(u / 256, k - 1);
      assert BigEndian(u, k)[..k - 1] == BigEndian(u / 256, k - 1);
    }
  }

  lemma EightBytes()
    ensures Pow256(8) == TwoTo64
  {
    assert Pow256(4) == 0x1_0000_0000;
    assert Pow256(6) == 0x1_0000_0000_0000;
  }

  lemma UnsignedInjective(t: int, t': int)
    requires MinInt <= t <= MaxInt && MinInt <= t' <= MaxInt && t % TwoTo64 == t' % TwoTo64
    ensures t == t'
  {
    assert t % TwoTo64 == if t < 0 then t + TwoTo64 else t;
    assert t' % TwoTo64 == if t' < 0 then t' + TwoTo64 else t';
  }

  lemma Be64Injective(t: int, t': int)
    requires MinInt <= t <= MaxInt && MinInt <= t' <= MaxInt && Be64(t) == Be64(t')
    ensures t == t'
  {
    EightBytes();
    var u, u' := t % TwoTo64, t' % TwoTo64;
    hide Pow256, FromBytes, BigEndian;
    BigEndianDenotes(u, 8);
    BigEndianDenotes(u', 8);
    UnsignedInjective(t, t');
  }

  lemma Parts(d: seq<Byte>, hash: seq<Byte>, b: seq<Byte>, nonce: seq<Byte>)
    requires |hash| == 32 && |b| == 8
    ensures
      var m := d + hash + b + nonce;
      m[|d|..|d| + 32] == hash && m[|d| + 32..|d| + 40] == b && m[|d| + 40..] == nonce
  {
  }

  /** One message stands for one token hash, one timestamp and one nonce. */
  lemma MessageInjective(hash: seq<Byte>, t: int, nonce: seq<Byte>, hash': seq<Byte>, t': int, nonce': seq<Byte>)
    requires |hash| == 32 && |hash'| == 32 && MinInt <= t <= MaxInt && MinInt <= t' <= MaxInt
    requires Message(hash, t, nonce) == Message(hash', t', nonce')
    ensures hash == hash' && t == t' && nonce == nonce'
  {
    Parts(Ascii(DOMAIN), hash, Be64(t), nonce);
    Parts(Ascii(DOMAIN), hash', Be64(t'), nonce');
    hide Ascii, BigEndian;
    Be64Injective(t, t');
  }

  // ------------------------------------------------------------------ both sides

  datatype Proof = Proof(timestamp: int, nonce: seq<Byte>, sig: Option<seq<Byte>>)

  datatype Verdict = Accepted | Missing | BadNonce | Stale | BadKey | BadSig

  function Abs(n: int): nat {
    if n < 0 then -n else n
  }

  /** VerifyPoP; `check` is the stored P-256 key's verification of a message, None if the key does not
      parse. The clock is in nanoseconds. */
  function VerifyPoP(check: Option<(seq<Byte>, nat, nat) -> bool>, hash: seq<Byte>, p: Proof, now: int): Verdict {
    if p.sig.None? then Missing
    else if |p.nonce| < 16 then BadNonce
    else if Abs(now - p.timestamp * 1_000_000_000) > Skew then Stale
    else if check.None? then BadKey
    else if |p.sig.value| != 64 then BadSig
    else if !check.value(Message(hash, p.timestamp, p.nonce),
                         FromBytes(p.sig.value[..32]), FromBytes(p.sig.value[32..])) then BadSig
    else Accepted
  }

  /** signRefreshPoP, given the nonce it drew and the pair the key returned for the message. */
  method SignRefreshPoP(hash: seq<Byte>, timestamp: int, nonce: seq<Byte>, r: nat, s: nat) returns (p: Proof)
    requires r < Pow256(32) && s < Pow256(32)
    ensures p == Proof(timestamp, nonce, Some(LeftPad(r) + LeftPad(s)))
    ensures forall check: (seq<Byte>, nat, nat) -> bool, now ::
              |nonce| >= 16 && check(Message(hash, timestamp, nonce), r, s) ==>
                (VerifyPoP(Some(check), hash, p, now) == Accepted <==> Abs(now - timestamp * 1_000_000_000) <= Skew)
  {
    var sig := EncodeSignature(r, s);
    p := Proof(timestamp, nonce, Some(sig));
  }

  /** What the server accepts was signed for this very token, timestamp and nonce: if the key verifies
      only what its owner signed, a proof cannot be moved to another token or another moment. */
  lemma ProofBindsToken(check: (seq<Byte>, nat, nat) -> bool, signed: set<(seq<Byte>, int, seq<Byte>)>,
                        hash: seq<Byte>, p: Proof, now: int)
    requires forall m, r, s :: check(m, r, s) ==> exists x :: x in signed && m == Message(x.0, x.1, x.2)
    requires forall x :: x in signed ==> |x.0| == 32 && MinInt <= x.1 <= MaxInt
    requires |hash| == 32 && MinInt <= p.timestamp <= MaxInt && VerifyPoP(Some(check), hash, p, now) == Accepted
    ensures (hash, p.timestamp, p.nonce) in signed && Abs(now - p.timestamp * 1_000_000_000) <= 90_000_000_000
  {
    var x :| x in signed && Message(hash, p.timestamp, p.nonce) == Message(x.0, x.1, x.2);
    MessageInjective(hash, p.timestamp, p.nonce, x.0, x.1, x.2);
  }

  /** The message on the wire: 23 characters that name the purpose, the token's hash, the timestamp as eight bytes,
      most significant first and in two's complement, and the nonce. */
  lemma MessageLayout(hash: seq<Byte>, t: int, nonce: seq<Byte>)
    requires |hash| == 32 && MinInt <= t <= MaxInt
    ensures
      var m, domain := Message(hash, t, nonce), "spawnery/refresh-pop/v1";
      && |m| == 63 + |nonce| && |domain| == 23 && (forall i :: 0 <= i < 23 ==> m[i] == domain[i] as int)
      && m[23..55] == hash && m[63..] == nonce
      && FromBytes(m[55..63]) == if t < 0 then t + 0x1_0000_0000_0000_0000 else t
  {
    DomainBytes();
    var d := Ascii(DOMAIN);
    hide Ascii;
    Parts(d, hash, Be64(t), nonce);
    hide Be64;
    assert (d + hash + Be64(t) + nonce)[..23] == d;
    Be64Denotes(t);
  }

  lemma DomainBytes()
    ensures |Ascii(DOMAIN)| == 23 && forall i :: 0 <= i < 23 ==> Ascii(DOMAIN)[i] == "spawnery/refresh-pop/v1"[i] as int
  {
    AsciiBytes(DOMAIN);
    hide Ascii;
  }

  lemma AsciiBytes(s: string)
    requires forall i :: 0 <= i < |s| ==> s[i] as int < 128
    ensures |Ascii(s)| == |s| && forall i :: 0 <= i < |s| ==> Ascii(s)[i] == s[i] as int
  {
  }

  lemma Be64Denotes(t: int)
    requires MinInt <= t <= MaxInt
    ensures |Be64(t)| == 8 && FromBytes(Be64(t)) == if t < 0 then t + TwoTo64 else t
  {
    EightBytes();
    BigEndianDenotes(t % TwoTo64, 8);
    hide Pow256, FromBytes, BigEndian;
    assert t % TwoTo64 == if t < 0 then t + TwoTo64 else t;
  }

  /** What is accepted: a signature of 64 bytes, a nonce of at least 16, a timestamp within 90 seconds of the clock
      either way, and a stored key that verifies the two numbers for the message. */
  lemma AcceptedIff(check: Option<(seq<Byte>, nat, nat) -> bool>, hash: seq<Byte>, p: Proof, now: int)
    ensures VerifyPoP(check, hash, p, now) == Accepted <==>
              && p.sig.Some? && |p.sig.value| == 64 && |p.nonce| >= 16
              && p.timestamp * 1_000_000_000 - 90_000_000_000 <= now <= p.timestamp * 1_000_000_000 + 90_000_000_000
              && check.Some?
              && check.value(Message(hash, p.timestamp, p.nonce), FromBytes(p.sig.value[..32]),
                             FromBytes(p.sig.value[32..]))
  {
  }
}
