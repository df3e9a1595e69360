/** What authenticated chunks are sealed with: no nonce, and no word of the keystream, serves twice. */
module AuthNonces {
  import opened Auth
  import opened AuthWires
  import opened Bytes
  import opened Nonces
  import opened Sealing

  /** The calls of the payload's generator for k chunks: a size sealed with the same authenticator takes one
      more. */
  function Calls(s: Setup, k: nat): nat {
    if s.size.SealedShared? then 2 * k else k
  }

  /** The generators have been called for k chunks since they stood at `start`. */
  predicate Counted(s: Setup, start: Lane, l: Lane, k: nat) {
    && s.gen == Increasing && l.nonce == Nonces.Nth(start.nonce, Calls(s, k))
    && (s.size.SealedOwn? ==> s.size.gen == Increasing && l.sizeNonce == Nonces.Nth(start.sizeNonce, k))
  }

  /** The size field h of chunk number k for this size: if it is sealed, under the nonce of a call of its own. */
  ghost predicate SizedAt(s: Setup, start: Lane, k: nat, size: int, h: Bytes) {
    && (s.size.SealedShared? ==>
          h == s.aead.seal(Nonces.Nth(start.nonce, 2 * k + 1), Be16((size - s.aead.overhead) % 0x1_0000)))
    && (s.size.SealedOwn? ==>
          h == s.size.aead.seal(Nonces.Nth(start.sizeNonce, k + 1), Be16((size - s.size.aead.overhead) % 0x1_0000)))
  }

  /** The bytes b of chunk number k, counting from 0, with this payload: so is its size, and so is the payload. */
  ghost predicate SealedAt(s: Setup, start: Lane, k: nat, payload: Bytes, b: Bytes) {
    var n, end := SizeBytes(s), SizeBytes(s) + |payload| + s.aead.overhead;
    && n <= end <= |b| && SizedAt(s, start, k, |b| - n, b[..n])
    && b[n..end] == s.aead.seal(Nonces.Nth(start.nonce, Calls(s, k + 1)), payload)
  }

  lemma SizeUnder(s: Setup, start: Lane, l: Lane, k: nat, size: uint16)
    requires Sound(s) && KeysFit(s, l) && Counted(s, start, l, k)
    ensures var h := EncodeSize(s, NextPadding(s, l).1, size).0;
            h.Some? && SizedAt(s, start, k, size, h.value)
    ensures PastSize(s, l).nonce == Nonces.Nth(start.nonce, if s.size.SealedShared? then 2 * k + 1 else k)
    ensures s.size.SealedOwn? ==> PastSize(s, l).sizeNonce == Nonces.Nth(start.sizeNonce, k + 1)
  {
    hide Xor, Be16;
  }

  lemma ChunkSealedAt(s: Setup, start: Lane, l: Lane, k: nat, noise: Noise, payload: Bytes)
    requires Ready(s, l, noise) && Counted(s, start, l, k) && SealChunk(s, l, noise, payload).0.Some?
    ensures SealedAt(s, start, k, payload, SealChunk(s, l, noise, payload).0.value)
    ensures Counted(s, start, Past(s, l), k + 1)
  {
    hide SealChunk, EncodeSize, PastSize, SizedAt, NextPadding, SizeBytes;
    TakenSteps(s, l, noise, payload);
    var sent := NextPadding(s, l).0;
    var size := |payload| + s.aead.overhead + sent;
    SizeUnder(s, start, l, k, size);
    var h := EncodeSize(s, NextPadding(s, l).1, size).0.value;
    var c := Seal(s, PastSize(s, l), payload).0.value;
    var b := SealChunk(s, l, noise, payload).0.value;
    assert b[..|h|] == h && b[|h|..|h| + |c|] == c && |b| - |h| == size;
  }

  lemma RefusedCounts(s: Setup, start: Lane, l: Lane, k: nat, noise: Noise, payload: Bytes)
    requires Ready(s, l, noise) && Counted(s, start, l, k) && SealChunk(s, l, noise, payload).0.None?
    ensures Counted(s, start, SealChunk(s, l, noise, payload).1, k)
  {
    RefusedSteps(s, l, noise, payload);
  }

  /** Whatever is sealed and whatever is refused: the chunks on the wire are sealed under the nonces of
      consecutive calls. */
  lemma {:induction false} SealedUnder(s: Setup, start: Lane, l: Lane, k: nat, noise: Noise, ps: seq<Bytes>, i: nat)
    requires Ready(s, l, noise) && Counted(s, start, l, k) && i < |Sealed(s, l, noise, ps).0|
    ensures var c := Sealed(s, l, noise, ps).0[i];
            SealedAt(s, start, k + i, c.payload, ChunkBytes(s, noise, c))
    decreases |ps|
  {
    hide SealChunk, SealedAt, Counted, Ready, Past;
    var (b, l1) := SealChunk(s, l, noise, ps[0]);
    if b.Some? {
      ChunkSealedAt(s, start, l, k, noise, ps[0]);
      TakenSteps(s, l, noise, ps[0]);
      PastReady(s, l, noise);
      if i > 0 {
        SealedUnder(s, start, l1, k + 1, noise, ps[1..], i - 1);
      }
    } else {
      RefusedCounts(s, start, l, k, noise, ps[0]);
      RefusedSteps(s, l, noise, ps[0]);
      SealedUnder(s, start, l1, k, noise, ps[1..], i);
    }
  }

  /** The first n calls of a generator hand out n different nonces. */
  ghost predicate Distinct(c: Bytes, n: nat) {
    forall a: nat, b: nat :: 1 <= a < b <= n ==> Nonces.Nth(c, a) != Nonces.Nth(c, b)
  }

  lemma AllDistinct(c: Bytes, n: nat)
    requires n <= Pow256(|c|)
    ensures Distinct(c, n)
  {
    forall a: nat, b: nat | 1 <= a < b <= n ensures Nonces.Nth(c, a) != Nonces.Nth(c, b) {
      NoncesRepeatIff(c, a, b);
      SmallMod(b - a, Pow256(|c|));
    }
  }

  /** So of all the sizes and payloads of a stream no two are sealed under the same nonce, as long as the
      generators have not gone through a whole period. */
  lemma NoNonceTwice(s: Setup, l: Lane, noise: Noise, ps: seq<Bytes>)
    requires Ready(s, l, noise) && s.gen == Increasing && (s.size.SealedOwn? ==> s.size.gen == Increasing)
    requires Calls(s, |Sealed(s, l, noise, ps).0|) <= Pow256(|l.nonce|)
    requires s.size.SealedOwn? ==> |Sealed(s, l, noise, ps).0| <= Pow256(|l.sizeNonce|)
    ensures var cs := Sealed(s, l, noise, ps).0;
            && (forall i :: 0 <= i < |cs| ==> SealedAt(s, l, i, cs[i].payload, ChunkBytes(s, noise, cs[i])))
            && Distinct(l.nonce, Calls(s, |cs|)) && (s.size.SealedOwn? ==> Distinct(l.sizeNonce, |cs|))
  {
    hide SealedAt, ChunkBytes, Ready, Sealed;
    var cs := Sealed(s, l, noise, ps).0;
    forall i | 0 <= i < |cs| ensures SealedAt(s, l, i, cs[i].payload, ChunkBytes(s, noise, cs[i])) {
      SealedUnder(s, l, l, 0, noise, ps, i);
    }
    AllDistinct(l.nonce, Calls(s, |cs|));
    if s.size.SealedOwn? {
      AllDistinct(l.sizeNonce, |cs|);
    }
  }

  /** The words of the keystream that a chunk takes: one for the length of its padding, one to mask its size. */
  function Words(s: Setup): nat {
    (if s.padded then 1 else 0) + (if s.size.Masked? then 1 else 0)
  }

  /** The bytes b of a chunk with this payload, sealed at the d-th word: the first is for the padding, the last
      for the mask. */
  ghost predicate DrawnAt(s: Setup, d: nat, payload: Bytes, b: Bytes) {
    && |b| == SizeBytes(s) + |payload| + s.aead.overhead + (if s.padded then s.padOf(s.words(d)) else 0)
    && (s.size.Masked? ==> |b| < 0x1_0002 && b[..2] == Be16(Xor(s.words(d + Words(s) - 1), |b| - 2)))
  }

  lemma ChunkDrawnAt(s: Setup, l: Lane, noise: Noise, payload: Bytes)
    requires Ready(s, l, noise) && SealChunk(s, l, noise, payload).0.Some?
    ensures DrawnAt(s, l.draws, payload, SealChunk(s, l, noise, payload).0.value)
    ensures Past(s, l).draws == l.draws + Words(s)
  {
    hide SealChunk, Xor;
    TakenSteps(s, l, noise, payload);
    var size := |payload| + s.aead.overhead + NextPadding(s, l).0;
    var h := EncodeSize(s, NextPadding(s, l).1, size).0.value;
    assert SealChunk(s, l, noise, payload).0.value[..|h|] == h;
  }

  /** Nor does a word of the keystream serve twice: each chunk draws its own from its place on, and the next
      chunk sealed starts behind them. */
  lemma {:induction false} NoWordTwice(s: Setup, l: Lane, noise: Noise, ps: seq<Bytes>, i: nat)
    requires Ready(s, l, noise) && i < |Sealed(s, l, noise, ps).0|
    ensures var cs := Sealed(s, l, noise, ps).0;
            && cs[i].at.draws >= l.draws && DrawnAt(s, cs[i].at.draws, cs[i].payload, ChunkBytes(s, noise, cs[i]))
            && (i + 1 < |cs| ==> cs[i + 1].at.draws >= cs[i].at.draws + Words(s))
    decreases |ps|
  {
    hide SealChunk, Ready, DrawnAt, Past, Words;
    var (b, l1) := SealChunk(s, l, noise, ps[0]);
    if b.Some? {
      TakenSteps(s, l, noise, ps[0]);
      ChunkDrawnAt(s, l, noise, ps[0]);
      PastReady(s, l, noise);
      if i > 0 {
        NoWordTwice(s, l1, noise, ps[1..], i - 1);
      } else if |Sealed(s, l, noise, ps).0| > 1 {
        NoWordTwice(s, l1, noise, ps[1..], 0);
      }
    } else {
      RefusedSteps(s, l, noise, ps[0]);
      NoWordTwice(s, l1, noise, ps[1..], i);
    }
  }
}
