/** common/crypto: what the two ends of an authenticated stream share, and the state they must keep in
    step: payload nonces, size nonces and draws from the keystream. */
module Sealing {
  import opened Bytes
  import opened Nonces

  /** An AEAD under a fixed key and additional data. */
  datatype Aead = Aead(
    nonceSize: nat,
    overhead: uint16,
    seal: (Bytes, Bytes) -> Bytes,
    open: (Bytes, Bytes) -> Option<Bytes>)

  /** The ideal AEAD: opening under the nonce it was sealed with gives the plain text back. */
  ghost predicate Ideal(a: Aead) {
    && (forall n, p :: |a.seal(n, p)| == |p| + a.overhead && a.open(n, a.seal(n, p)) == Some(p))
    && (forall n, c :: a.open(n, c).Some? ==> |a.open(n, c).value| + a.overhead == |c|)
  }

  /** How chunk sizes travel: in the clear, xored with the keystream (ShakeSizeParser), or sealed
      (AEADChunkSizeParser), with the payload's authenticator or one of their own. */
  datatype SizeMode = Plain | Masked | SealedShared | SealedOwn(aead: Aead, gen: Kind)

  /** The configuration of an end. Padding lengths come from the same keystream as the masks. */
  datatype Setup = Setup(
    aead: Aead,
    gen: Kind,
    size: SizeMode,
    padded: bool,
    maxPadding: uint16,
    padOf: uint16 -> uint16,
    words: nat -> uint16)

  /** The position of an end in everything it draws from. */
  datatype Lane = Lane(nonce: Bytes, sizeNonce: Bytes, draws: nat)

  ghost predicate Sound(s: Setup) {
    && Ideal(s.aead) && (s.size.SealedOwn? ==> Ideal(s.size.aead))
    && forall w :: s.padOf(w) <= s.maxPadding
  }

  /** Nonces of the size the AEADs want; otherwise Seal and Open fail. */
  predicate KeysFit(s: Setup, l: Lane) {
    |l.nonce| == s.aead.nonceSize && (s.size.SealedOwn? ==> |l.sizeNonce| == s.size.aead.nonceSize)
  }

  function SealWith(a: Aead, iv: Bytes, plain: Bytes): Option<Bytes> {
    if |iv| != a.nonceSize then None else Some(a.seal(iv, plain))
  }

  function OpenWith(a: Aead, iv: Bytes, cipher: Bytes): Option<Bytes> {
    if |iv| != a.nonceSize then None else a.open(iv, cipher)
  }

  /** AEADAuthenticator.Seal: the nonce is drawn first, whatever happens then. */
  function Seal(s: Setup, l: Lane, plain: Bytes): (Option<Bytes>, Lane) {
    var iv := Next(s.gen, l.nonce);
    (SealWith(s.aead, iv, plain), l.(nonce := iv))
  }

  function Open(s: Setup, l: Lane, cipher: Bytes): (Option<Bytes>, Lane) {
    var iv := Next(s.gen, l.nonce);
    (OpenWith(s.aead, iv, cipher), l.(nonce := iv))
  }

  /** NextPaddingLen, or no padding. */
  function NextPadding(s: Setup, l: Lane): (uint16, Lane) {
    if s.padded then (s.padOf(s.words(l.draws)), l.(draws := l.draws + 1)) else (0, l)
  }

  function MaxPadding(s: Setup): uint16 {
    if s.padded then s.maxPadding else 0
  }

  function Pow2(n: nat): (p: nat)
    ensures p > 0
  {
    if n == 0 then 1 else 2 * Pow2(n - 1)
  }

  /** Exclusive or of the low n bits. */
  function XorBits(n: nat, a: nat, b: nat): (r: nat)
    ensures r < Pow2(n)
  {
    if n == 0 then 0 else (if a % 2 == b % 2 then 0 else 1) + 2 * XorBits(n - 1, a / 2, b / 2)
  }

  lemma {:induction false} XorBitsTwice(n: nat, a: nat, b: nat)
    requires b < Pow2(n)
    ensures XorBits(n, a, XorBits(n, a, b)) == b
  {
    if n > 0 {
      XorBitsTwice(n - 1, a / 2, b / 2);
    }
  }

  function Xor(a: uint16, b: uint16): uint16 {
    assert Pow2(16) == 0x1_0000 by { Pow2Of16(); }
    XorBits(16, a, b)
  }

  lemma Pow2Of16()
    ensures Pow2(16) == 0x1_0000
  {
    assert Pow2(4) == 16;
    assert Pow2(8) == 0x100;
    assert Pow2(12) == 0x1000;
  }

  lemma XorTwice(a: uint16, b: uint16)
    ensures Xor(a, Xor(a, b)) == b
  {
    Pow2Of16();
    XorBitsTwice(16, a, b);
  }

  function SizeBytes(s: Setup): nat {
    match s.size
    case Plain => 2
    case Masked => 2
    case SealedShared => 2 + s.aead.overhead
    case SealedOwn(a, _) => 2 + a.overhead
  }

  /** ChunkSizeEncoder.Encode; the sealed forms write the size less the overhead, in 16 bits. */
  function EncodeSize(s: Setup, l: Lane, size: uint16): (Option<Bytes>, Lane) {
    match s.size
    case Plain => (Some(Be16(size)), l)
    case Masked => (Some(Be16(Xor(s.words(l.draws), size))), l.(draws := l.draws + 1))
    case SealedShared => Seal(s, l, Be16((size - s.aead.overhead) % 0x1_0000))
    case SealedOwn(a, gen) =>
      var iv := Next(gen, l.sizeNonce);
      (SealWith(a, iv, Be16((size - a.overhead) % 0x1_0000)), l.(sizeNonce := iv))
  }

  function Unwrap(plain: Option<Bytes>, overhead: uint16): Option<uint16> {
    if plain.Some? && |plain.value| == 2
    then Some((FromBe16(plain.value) + overhead) % 0x1_0000)
    else None
  }

  /** ChunkSizeDecoder.Decode. */
  function DecodeSize(s: Setup, l: Lane, b: Bytes): (Option<uint16>, Lane)
    requires |b| == SizeBytes(s)
  {
    match s.size
    case Plain => (Some(FromBe16(b)), l)
    case Masked => (Some(Xor(s.words(l.draws), FromBe16(b))), l.(draws := l.draws + 1))
    case SealedShared =>
      var (p, l') := Open(s, l, b);
      (Unwrap(p, s.aead.overhead), l')
    case SealedOwn(a, gen) =>
      var iv := Next(gen, l.sizeNonce);
      (Unwrap(OpenWith(a, iv, b), a.overhead), l.(sizeNonce := iv))
  }

  lemma WrapRoundTrip(size: uint16, overhead: uint16)
    ensures ((size - overhead) % 0x1_0000 + overhead) % 0x1_0000 == size
  {
  }

  /** Both ends draw alike: decoding where the other end encoded gives the size back and leaves the
      decoder where the encoder went. */
  lemma SizeRoundTrip(s: Setup, l: Lane, size: uint16)
    requires Sound(s) && KeysFit(s, l)
    ensures var (b, l') := EncodeSize(s, l, size);
            && b.Some? && |b.value| == SizeBytes(s) && KeysFit(s, l')
            && DecodeSize(s, l, b.value) == (Some(size), l')
  {
    match s.size
    case Plain => Be16RoundTrip(size);
    case Masked =>
      XorTwice(s.words(l.draws), size);
      Be16RoundTrip(Xor(s.words(l.draws), size));
    case SealedShared =>
      WrapRoundTrip(size, s.aead.overhead);
      Be16RoundTrip((size - s.aead.overhead) % 0x1_0000);
    case SealedOwn(a, gen) =>
      WrapRoundTrip(size, a.overhead);
      Be16RoundTrip((size - a.overhead) % 0x1_0000);
  }

  lemma SealRoundTrip(s: Setup, l: Lane, plain: Bytes)
    requires Sound(s) && KeysFit(s, l)
    ensures var (c, l') := Seal(s, l, plain);
            && c.Some? && |c.value| == |plain| + s.aead.overhead && KeysFit(s, l')
            && Open(s, l, c.value) == (Some(plain), l')
  {
  }

  lemma PaddingBound(s: Setup, l: Lane)
    requires Sound(s)
    ensures NextPadding(s, l).0 <= MaxPadding(s)
  {
  }
}
