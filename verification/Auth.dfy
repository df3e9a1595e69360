/** common/crypto/auth.go on contents: the authenticated form of a stream, and reading it back. */
module Auth {
  import opened Bytes
  import opened Buffers
  import opened Sealing
  import Streams

  // ---- Writing ----

  /** rand.Read: what the padding bytes of a draw are. */
  type Noise = (nat, nat) -> Bytes

  ghost predicate Ready(s: Setup, l: Lane, noise: Noise) {
    && Sound(s) && KeysFit(s, l)
    && forall i, n :: |noise(i, n)| == n
  }

  /** seal: padding is drawn, then the size is encoded, then the payload is sealed. A chunk that does
      not fit a buffer is refused after its padding was drawn. */
  function SealChunk(s: Setup, l: Lane, noise: Noise, b: Bytes): (Option<Bytes>, Lane) {
    var (pad, l1) := NextPadding(s, l);
    if SizeBytes(s) + |b| + s.aead.overhead + pad > SIZE then (None, l1)
    else
      var (size, l2) := EncodeSize(s, l1, |b| + s.aead.overhead + pad);
      var (cipher, l3) := Seal(s, l2, b);
      if size.None? || cipher.None? then (None, l3)
      else (Some(size.value + cipher.value + noise(l.draws, pad)), l3)
  }

  /** The payload of a full chunk of a stream: what is left of a buffer after the overheads. */
  function PayloadSize(s: Setup): int {
    SIZE - s.aead.overhead - SizeBytes(s) - MaxPadding(s)
  }

  /** writeStream's loop: pieces of at most n bytes, the last one shorter. */
  function Pieces(data: Bytes, n: nat): seq<Bytes>
    requires n > 0
    decreases |data|
  {
    if |data| <= n then [data] else [data[..n]] + Pieces(data[n..], n)
  }

  /** Seal one payload after the other; None as soon as one is refused. */
  function SealAll(s: Setup, l: Lane, noise: Noise, ps: seq<Bytes>): (Option<seq<Bytes>>, Lane)
    decreases |ps|
  {
    if ps == [] then (Some([]), l)
    else
      var (b, l1) := SealChunk(s, l, noise, ps[0]);
      if b.None? then (None, l1)
      else
        var (rest, l2) := SealAll(s, l1, noise, ps[1..]);
        (if rest.None? then None else Some([b.value] + rest.value), l2)
  }

  /** writePacket's loop: empty packets are skipped, and so are refused ones. */
  function SealPackets(s: Setup, l: Lane, noise: Noise, ps: seq<Bytes>): (seq<Bytes>, Lane)
    decreases |ps|
  {
    if ps == [] then ([], l)
    else if ps[0] == [] then SealPackets(s, l, noise, ps[1..])
    else
      var (b, l1) := SealChunk(s, l, noise, ps[0]);
      var (rest, l2) := SealPackets(s, l1, noise, ps[1..]);
      (if b.None? then rest else [b.value] + rest, l2)
  }

  /** A payload that always fits a chunk. */
  predicate Fits(s: Setup, b: Bytes) {
    |b| <= PayloadSize(s)
  }

  lemma SealChunkFits(s: Setup, l: Lane, noise: Noise, b: Bytes)
    requires Ready(s, l, noise) && Fits(s, b)
    ensures SealChunk(s, l, noise, b).0.Some? && Ready(s, SealChunk(s, l, noise, b).1, noise)
  {
    PaddingBound(s, l);
    var (pad, l1) := NextPadding(s, l);
    SizeRoundTrip(s, l1, |b| + s.aead.overhead + pad);
    SealRoundTrip(s, EncodeSize(s, l1, |b| + s.aead.overhead + pad).1, b);
  }

  /** The steps of seal, one by one. */
  lemma SealChunkSteps(s: Setup, l: Lane, noise: Noise, b: Bytes)
    requires Ready(s, l, noise)
    ensures var (pad, l1) := NextPadding(s, l);
            var size := |b| + s.aead.overhead + pad;
            Ready(s, l1, noise) &&
            if SizeBytes(s) + size > SIZE then SealChunk(s, l, noise, b) == (None, l1)
            else
              var (h, l2) := EncodeSize(s, l1, size);
              var (c, l3) := Seal(s, l2, b);
              && h.Some? && |h.value| == SizeBytes(s) && Ready(s, l2, noise)
              && c.Some? && |c.value| == |b| + s.aead.overhead && Ready(s, l3, noise)
              && SealChunk(s, l, noise, b) == (Some(h.value + c.value + noise(l.draws, pad)), l3)
  {
    hide EncodeSize, DecodeSize, Seal;
    var (pad, l1) := NextPadding(s, l);
    var size := |b| + s.aead.overhead + pad;
    if SizeBytes(s) + size <= SIZE {
      SizeRoundTrip(s, l1, size);
      SealRoundTrip(s, EncodeSize(s, l1, size).1, b);
    }
  }

  /** A chunk is refused exactly when it does not fit a buffer with the padding just drawn. */
  lemma SealRefusesIff(s: Setup, l: Lane, noise: Noise, b: Bytes)
    requires Ready(s, l, noise)
    ensures SealChunk(s, l, noise, b).0.None? <==>
              SizeBytes(s) + |b| + s.aead.overhead + NextPadding(s, l).0 > SIZE
  {
    var (pad, l1) := NextPadding(s, l);
    if SizeBytes(s) + |b| + s.aead.overhead + pad <= SIZE {
      SizeRoundTrip(s, l1, |b| + s.aead.overhead + pad);
      SealRoundTrip(s, EncodeSize(s, l1, |b| + s.aead.overhead + pad).1, b);
    }
  }

  lemma {:induction false} PiecesFit(data: Bytes, n: nat)
    requires n > 0
    ensures Flat(Pieces(data, n)) == data
    ensures forall i :: 0 <= i < |Pieces(data, n)| ==> |Pieces(data, n)[i]| <= n
    ensures data != [] ==> forall i :: 0 <= i < |Pieces(data, n)| ==> Pieces(data, n)[i] != []
    decreases |data|
  {
    if |data| <= n {
      FlatOne(data);
    } else {
      PiecesFit(data[n..], n);
      assert Pieces(data, n)[1..] == Pieces(data[n..], n);
      assert data == data[..n] + data[n..];
    }
  }


  // ---- Reading ----

  /** AuthenticationReader: a size and padding length read ahead, the end flag, and the positions. */
  datatype Reader = Reader(
    size: uint16,
    padding: uint16,
    hasSize: bool,
    done: bool,
    lane: Lane,
    stream: Streams.State)

  /** errSoft: a soft read would have to wait for the source. */
  const SOFT: Error := Failure("waiting for more data")

  /** readSize: the size kept from a soft read, or the next one; padding is drawn before the decoding. */
  function ReadSize(s: Setup, r: Reader): (Reader, uint16, uint16, Error)
    requires r.stream.end != NoError
  {
    if r.hasSize then (r.(hasSize := false), r.size, r.padding, NoError)
    else
      var (st, head, err) := Streams.ReadFull(r.stream, SizeBytes(s));
      Streams.ReadFullDelivers(r.stream, SizeBytes(s));
      if err != NoError then (r.(stream := st), 0, 0, err)
      else
        var (pad, l1) := NextPadding(s, r.lane);
        var (size, l2) := DecodeSize(s, l1, head);
        var r' := r.(stream := st, lane := l2);
        if size.None? then (r', 0, pad, Failure("invalid size")) else (r', size.value, pad, NoError)
  }

  /** Where the sealed part ends in a chunk of `size` bytes. BytesTo counts from the end when the padding
      is longer than the chunk, and slicing panics when even that is out of range. */
  function SealedEnd(size: uint16, padding: uint16): Option<nat> {
    var n := Resolve(size, size - padding);
    if 0 <= n then Some(n) else None
  }

  /** Read and open a chunk of `size` bytes, the last `padding` of them noise. */
  function ReadChunk(s: Setup, r: Reader, size: uint16, padding: uint16): (Reader, Option<Bytes>, Error)
    requires r.stream.end != NoError
  {
    var (st, block, err) := Streams.ReadFull(r.stream, size);
    Streams.ReadFullDelivers(r.stream, size);
    var r1 := r.(stream := st);
    if err != NoError then (r1, None, err)
    else if SealedEnd(size, padding).None? then (r1, None, Failure("slice bounds out of range"))
    else
      var (plain, l) := Open(s, r.lane, block[..SealedEnd(size, padding).value]);
      if plain.None? then (r1.(lane := l), None, Failure("cipher: message authentication failed"))
      else (r1.(lane := l), plain, NoError)
  }

  lemma ReadChunkLength(s: Setup, r: Reader, size: uint16, padding: uint16)
    requires r.stream.end != NoError && Sound(s)
    ensures var (r1, p, err) := ReadChunk(s, r, size, padding);
            && (err == NoError <==> p.Some?)
            && (p.Some? ==> |p.value| <= size <= |p.value| + s.aead.overhead + padding)
  {
    Streams.ReadFullDelivers(r.stream, size);
  }

  /** readInternal: the payload of the next chunk, or why there is none. */
  function ReadInternal(s: Setup, r: Reader, soft: bool): (Reader, Option<Bytes>, Error)
    requires r.stream.end != NoError
  {
    if soft && |Flat(r.stream.buffer)| < SizeBytes(s) then (r, None, SOFT)
    else if r.done then (r, None, EOF)
    else
      ReadSizeKeepsEnd(s, r);
      var (r1, size, padding, err) := ReadSize(s, r);
      if err != NoError then (r1, None, err) else ReadBody(s, r1, soft, size, padding)
  }

  /** readInternal once the size is known: the end, or a chunk to wait for, or to read. */
  function ReadBody(s: Setup, r: Reader, soft: bool, size: uint16, padding: uint16): (Reader, Option<Bytes>, Error)
    requires r.stream.end != NoError
  {
    if size == (s.aead.overhead + padding) % 0x1_0000 then (r.(done := true), None, EOF)
    else if soft && size > |Flat(r.stream.buffer)| then
      (r.(size := size, padding := padding, hasSize := true), None, SOFT)
    else ReadChunk(s, r, size, padding)
  }

  lemma ReadSizeKeepsEnd(s: Setup, r: Reader)
    requires r.stream.end != NoError
    ensures ReadSize(s, r).0.stream.end == r.stream.end
  {
    Streams.ReadFullDelivers(r.stream, SizeBytes(s));
  }

  /** The soft reads of ReadMultiBuffer: up to k more chunks, as long as they are buffered. */
  ghost function ReadMore(s: Setup, r: Reader, k: nat): (Reader, seq<Bytes>, Error)
    requires r.stream.end != NoError
    decreases k
  {
    if k == 0 then (r, [], NoError)
    else
      ReadInternalProgress(s, r, true);
      var (r1, p, err) := ReadInternal(s, r, true);
      if err == SOFT || err == EOF then (r1, [], NoError)
      else if err != NoError || p.None? then (r1, [], err)
      else
        var (r2, ps, err) := ReadMore(s, r1, k - 1);
        (r2, [p.value] + ps, err)
  }

  /** ReadMultiBuffer reads one chunk, however long it has to wait, and up to 15 buffered ones. */
  const READ_SIZE: nat := 16

  ghost function ReadMultiBuffer(s: Setup, r: Reader): (Reader, seq<Bytes>, Error)
    requires r.stream.end != NoError
  {
    ReadInternalProgress(s, r, false);
    var (r1, p, err) := ReadInternal(s, r, false);
    if err != NoError || p.None? then (r1, [], err)
    else
      var (r2, ps, err) := ReadMore(s, r1, READ_SIZE - 1);
      if err != NoError then (r2, [], err) else (r2, [p.value] + ps, NoError)
  }

  function Weight(r: Reader): nat {
    2 * Streams.Work(r.stream) + if r.hasSize then 1 else 0
  }

  lemma ReadInternalProgress(s: Setup, r: Reader, soft: bool)
    requires r.stream.end != NoError
    ensures var (r', p, err) := ReadInternal(s, r, soft);
            && r'.stream.end == r.stream.end
            && Weight(r') <= Weight(r)
            && (err == NoError ==> p.Some? && Weight(r') < Weight(r))
  {
    hide Streams.Work, Streams.Pending, Streams.Delivered, Streams.ReadFull, Open, DecodeSize, NextPadding;
    Streams.ReadFullDelivers(r.stream, SizeBytes(s));
    Streams.ReadFullWork(r.stream, SizeBytes(s));
    assert SizeBytes(s) > 0;
    var (r1, size, padding, err) := ReadSize(s, r);
    ReadSizeKeepsEnd(s, r);
    Streams.ReadFullDelivers(r1.stream, size);
  }

  lemma {:induction false} ReadMoreProgress(s: Setup, r: Reader, k: nat)
    requires r.stream.end != NoError
    ensures var (r', ps, err) := ReadMore(s, r, k);
            r'.stream.end == r.stream.end && Weight(r') <= Weight(r) && err != EOF
    decreases k
  {
    hide ReadInternal, Weight;
    if k > 0 {
      ReadInternalProgress(s, r, true);
      var (r1, p, err) := ReadInternal(s, r, true);
      if err == NoError {
        ReadMoreProgress(s, r1, k - 1);
      }
    }
  }

  lemma ReadProgress(s: Setup, r: Reader)
    requires r.stream.end != NoError
    ensures var (r', ps, err) := ReadMultiBuffer(s, r);
            r'.stream.end == r.stream.end && (err == NoError ==> Weight(r') < Weight(r))
  {
    hide ReadInternal, ReadMore, Weight;
    ReadInternalProgress(s, r, false);
    var (r1, p, err) := ReadInternal(s, r, false);
    if err == NoError {
      ReadMoreProgress(s, r1, READ_SIZE - 1);
    }
  }

  /** Call ReadMultiBuffer until it reports an error. */
  ghost function ReadAll(s: Setup, r: Reader): (Reader, seq<Bytes>, Error)
    requires r.stream.end != NoError
    decreases Weight(r)
  {
    ReadProgress(s, r);
    var (r1, ps, err) := ReadMultiBuffer(s, r);
    if err != NoError then (r1, [], err)
    else
      var (r2, more, err) := ReadAll(s, r1);
      (r2, ps + more, err)
  }

  // ---- Soft reads ----

  /** The saved size and padding only mean something while they are marked as saved. */
  function Norm(r: Reader): Reader {
    if r.hasSize then r else r.(size := 0, padding := 0)
  }

  /** On any input, well formed or not: a soft read leaves the source alone. */
  lemma SoftReadStaysOff(s: Setup, r: Reader)
    requires r.stream.end != NoError
    ensures ReadInternal(s, r, true).0.stream.segs == r.stream.segs
  {
    hide Streams.ReadFull, Streams.Pending, NextPadding, DecodeSize, Open, SizeBytes;
    ReadSizeKeepsEnd(s, r);
    Streams.ReadFullDelivers(r.stream, SizeBytes(s));
    var (r1, size, padding, err) := ReadSize(s, r);
    Streams.ReadFullDelivers(r1.stream, size);
  }

  /** And one that gives up leaves the next hard read exactly what it would have found without it. */
  lemma SoftReadHarmless(s: Setup, r: Reader)
    requires r.stream.end != NoError && ReadInternal(s, r, true).2 == SOFT
    ensures ReadInternal(s, r, true).0.stream.end == r.stream.end
    ensures var r1 := ReadInternal(s, r, true).0;
            var (a, p, err) := ReadInternal(s, r1, false);
            var (b, q, err') := ReadInternal(s, r, false);
            Norm(a) == Norm(b) && p == q && err == err'
  {
    hide ReadChunk, SizeBytes;
    ReadSizeKeepsEnd(s, r);
    if |Flat(r.stream.buffer)| >= SizeBytes(s) && !r.done {
      var (r1, size, padding, err) := ReadSize(s, r);
      SoftOnlyWhenShort(s, r);
      assert ReadInternal(s, r, true).0 == r1.(size := size, padding := padding, hasSize := true);
      ReadChunkIgnoresSaved(s, r1, size, padding);
    }
  }

  /** What was saved before does not matter once it is used. */
  lemma ReadChunkIgnoresSaved(s: Setup, r: Reader, size: uint16, padding: uint16)
    requires r.stream.end != NoError
    ensures var (a, p, err) := ReadChunk(s, r.(size := size, padding := padding), size, padding);
            var (b, q, err') := ReadChunk(s, r, size, padding);
            a == b.(size := size, padding := padding) && b.hasSize == r.hasSize && p == q && err == err'
  {
    hide Streams.ReadFull, Streams.Pending, Streams.Delivered, Open, SealedEnd, Flat;
    var r1 := r.(size := size, padding := padding);
    assert r1.stream == r.stream && r1.lane == r.lane;
  }

  /** With its size bytes buffered, a soft read gives up only for want of the chunk itself. */
  lemma SoftOnlyWhenShort(s: Setup, r: Reader)
    requires r.stream.end != NoError && ReadInternal(s, r, true).2 == SOFT
    requires |Flat(r.stream.buffer)| >= SizeBytes(s) && !r.done
    ensures var (r1, size, padding, err) := ReadSize(s, r);
            && err == NoError && size != (s.aead.overhead + padding) % 0x1_0000
            && size > |Flat(r1.stream.buffer)|
  {
    hide Streams.ReadFull, NextPadding, DecodeSize, Open, SizeBytes, ReadChunk;
    NotSoft();
    ReadSizeKeepsEnd(s, r);
    Streams.ReadFullDelivers(r.stream, SizeBytes(s));
    var (r1, size, padding, err) := ReadSize(s, r);
    if size <= |Flat(r1.stream.buffer)| {
      ReadChunkNotSoft(s, r1, size, padding);
    }
  }

  lemma ReadChunkNotSoft(s: Setup, r: Reader, size: uint16, padding: uint16)
    requires r.stream.end != NoError && size <= |Flat(r.stream.buffer)|
    ensures ReadChunk(s, r, size, padding).2 != SOFT
  {
    hide Streams.ReadFull, Open, SealedEnd;
    NotSoft();
    Streams.ReadFullDelivers(r.stream, size);
  }

  lemma NotSoft()
    ensures SOFT != Failure("invalid size") && SOFT != Failure("slice bounds out of range")
    ensures SOFT != Failure("cipher: message authentication failed")
  {
    assert |SOFT.reason| == 21;
  }

  // ---- A whole write ----

  /** One WriteMultiBuffer: an empty list seals the empty payload, and so ends the stream. */
  function Write(s: Setup, l: Lane, noise: Noise, packets: bool, ps: seq<Bytes>): (Option<seq<Bytes>>, Lane)
    requires PayloadSize(s) > 0
  {
    if packets && Flat(ps) != [] then
      var (bs, l1) := SealPackets(s, l, noise, ps);
      (Some(bs), l1)
    else SealAll(s, l, noise, Pieces(Flat(ps), PayloadSize(s)))
  }
}
