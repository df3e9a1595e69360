/** common/crypto/auth.go on the wire: the chunks a writer puts there, whatever it refuses, and what a reader
    makes of them. */
module AuthWires {
  import opened Auth
  import opened Buffers
  import opened Bytes
  import opened Sealing
  import Streams

  // ---- On the wire ----

  /** Where an end stands past the padding and the size of a chunk, whatever the chunk. */
  function PastSize(s: Setup, l: Lane): Lane {
    EncodeSize(s, NextPadding(s, l).1, 0).1
  }

  /** And past all of it. */
  function Past(s: Setup, l: Lane): Lane {
    Seal(s, PastSize(s, l), []).1
  }

  /** Where an end stands past n chunks. */
  function Nth(s: Setup, l: Lane, n: nat): Lane
    decreases n
  {
    if n == 0 then l else Nth(s, Past(s, l), n - 1)
  }

  /** A chunk that was sent: where the sealer stood, and the payload. */
  datatype Chunk = Chunk(at: Lane, payload: Bytes)

  /** The payloads ps are sealed one after the other: the chunks of those that are not refused, and where
      that leaves the sealer. */
  function Sealed(s: Setup, l: Lane, noise: Noise, ps: seq<Bytes>): (seq<Chunk>, Lane)
    decreases |ps|
  {
    if ps == [] then ([], l)
    else
      var (b, l1) := SealChunk(s, l, noise, ps[0]);
      var (cs, l2) := Sealed(s, l1, noise, ps[1..]);
      ((if b.Some? then [Chunk(l, ps[0])] else []) + cs, l2)
  }

  function ChunkBytes(s: Setup, noise: Noise, c: Chunk): Bytes {
    var b := SealChunk(s, c.at, noise, c.payload).0;
    if b.Some? then b.value else []
  }

  /** The bytes of chunks. */
  function Wire(s: Setup, noise: Noise, cs: seq<Chunk>): Bytes {
    if cs == [] then [] else ChunkBytes(s, noise, cs[0]) + Wire(s, noise, cs[1..])
  }

  function Payloads(cs: seq<Chunk>): (ps: seq<Bytes>)
    ensures |ps| == |cs|
  {
    seq(|cs|, i requires 0 <= i < |cs| => cs[i].payload)
  }

  /** The same nonces come next; a refused chunk costs padding only. */
  predicate SameNonces(l: Lane, m: Lane) {
    l.nonce == m.nonce && l.sizeNonce == m.sizeNonce
  }

  lemma PastSame(s: Setup, l: Lane, m: Lane)
    requires SameNonces(l, m)
    ensures SameNonces(PastSize(s, l), PastSize(s, m)) && SameNonces(Past(s, l), Past(s, m))
  {
  }

  lemma PastReady(s: Setup, l: Lane, noise: Noise)
    requires Ready(s, l, noise)
    ensures Ready(s, PastSize(s, l), noise) && Ready(s, Past(s, l), noise)
  {
  }

  lemma EncodeMoves(s: Setup, l: Lane, n: uint16)
    ensures EncodeSize(s, l, n).1 == EncodeSize(s, l, 0).1
  {
  }

  /** The steps of seal for a chunk that was taken. */
  lemma TakenSteps(s: Setup, l: Lane, noise: Noise, b: Bytes)
    requires Ready(s, l, noise) && SealChunk(s, l, noise, b).0.Some?
    ensures SealChunk(s, l, noise, b).1 == Past(s, l)
    ensures var sent := NextPadding(s, l).0;
            && SizeBytes(s) + |b| + s.aead.overhead + sent <= SIZE
            && var h := EncodeSize(s, NextPadding(s, l).1, |b| + s.aead.overhead + sent).0;
               var c := Seal(s, PastSize(s, l), b).0;
               && h.Some? && |h.value| == SizeBytes(s) && c.Some? && |c.value| == |b| + s.aead.overhead
               && SealChunk(s, l, noise, b).0 == Some(h.value + c.value + noise(l.draws, sent))
               && |noise(l.draws, sent)| == sent
  {
    hide EncodeSize, NextPadding, SealChunk;
    SealChunkSteps(s, l, noise, b);
    var (sent, l1) := NextPadding(s, l);
    var size := |b| + s.aead.overhead + sent;
    assert SizeBytes(s) + size <= SIZE;
    EncodeMoves(s, l1, size);
  }

  /** A refused chunk has used up its padding draw, and nothing else. */
  lemma RefusedSteps(s: Setup, l: Lane, noise: Noise, b: Bytes)
    requires Ready(s, l, noise) && SealChunk(s, l, noise, b).0.None?
    ensures SealChunk(s, l, noise, b).1 == NextPadding(s, l).1 && SameNonces(l, NextPadding(s, l).1)
    ensures Ready(s, NextPadding(s, l).1, noise)
  {
    SealChunkSteps(s, l, noise, b);
  }

  lemma {:induction false} SealedAppend(s: Setup, l: Lane, noise: Noise, a: seq<Bytes>, b: seq<Bytes>)
    ensures var (cs, l1) := Sealed(s, l, noise, a);
            var (ds, l2) := Sealed(s, l1, noise, b);
            Sealed(s, l, noise, a + b) == (cs + ds, l2)
    decreases |a|
  {
    hide SealChunk;
    if a == [] {
      assert a + b == b;
      assert [] + Sealed(s, l, noise, b).0 == Sealed(s, l, noise, b).0;
    } else {
      assert (a + b)[0] == a[0] && (a + b)[1..] == a[1..] + b;
      var (c, l1) := SealChunk(s, l, noise, a[0]);
      SealedAppend(s, l1, noise, a[1..], b);
      var front := if c.Some? then [Chunk(l, a[0])] else [];
      var (cs, l2) := Sealed(s, l1, noise, a[1..]);
      assert front + (cs + Sealed(s, l2, noise, b).0) == front + cs + Sealed(s, l2, noise, b).0;
    }
  }

  lemma {:induction false} WireAppend(s: Setup, noise: Noise, cs: seq<Chunk>, ds: seq<Chunk>)
    ensures Wire(s, noise, cs + ds) == Wire(s, noise, cs) + Wire(s, noise, ds)
    decreases |cs|
  {
    hide ChunkBytes;
    if cs == [] {
      assert cs + ds == ds;
    } else {
      assert (cs + ds)[0] == cs[0] && (cs + ds)[1..] == cs[1..] + ds;
      WireAppend(s, noise, cs[1..], ds);
    }
  }

  /** Where sealing leaves the sealer: past the chunks it sent, and ahead of a reader of those by one
      padding draw for every payload it refused. */
  lemma {:induction false} SealerLeads(s: Setup, l: Lane, noise: Noise, ps: seq<Bytes>)
    requires Ready(s, l, noise)
    ensures var (cs, l1) := Sealed(s, l, noise, ps);
            && Ready(s, l1, noise) && |cs| <= |ps|
            && var m := Nth(s, l, |cs|);
               l1 == m.(draws := m.draws + if s.padded then |ps| - |cs| else 0)
    decreases |ps|
  {
    hide SealChunk, Ready, PastSize;
    if ps != [] {
      var (b, l1) := SealChunk(s, l, noise, ps[0]);
      if b.Some? {
        TakenSteps(s, l, noise, ps[0]);
        PastReady(s, l, noise);
        SealerLeads(s, Past(s, l), noise, ps[1..]);
      } else {
        RefusedSteps(s, l, noise, ps[0]);
        SealerLeads(s, l1, noise, ps[1..]);
        if s.padded {
          NthShifted(s, l, 1, |Sealed(s, l1, noise, ps[1..]).0|);
        }
      }
    }
  }

  /** Ends that differ by k draws still do after n chunks. */
  lemma {:induction false} NthShifted(s: Setup, l: Lane, k: nat, n: nat)
    ensures var m := Nth(s, l, n);
            Nth(s, l.(draws := l.draws + k), n) == m.(draws := m.draws + k)
    decreases n
  {
    hide Xor, Be16, SealWith;
    if n > 0 {
      assert Past(s, l.(draws := l.draws + k)) == Past(s, l).(draws := Past(s, l).draws + k);
      NthShifted(s, Past(s, l), k, n - 1);
    }
  }

  /** The payloads sent are among those given. */
  lemma {:induction false} SealedOf(s: Setup, l: Lane, noise: Noise, ps: seq<Bytes>)
    ensures forall c :: c in Sealed(s, l, noise, ps).0 ==> c.payload in ps
    decreases |ps|
  {
    hide SealChunk;
    if ps != [] {
      SealedOf(s, SealChunk(s, l, noise, ps[0]).1, noise, ps[1..]);
    }
  }

  /** When SealAll is not refused anything, it has sealed all. */
  lemma {:induction false} SealAllSends(s: Setup, l: Lane, noise: Noise, ps: seq<Bytes>)
    requires SealAll(s, l, noise, ps).0.Some?
    ensures var (bs, l1) := SealAll(s, l, noise, ps);
            var (cs, l2) := Sealed(s, l, noise, ps);
            l1 == l2 && Flat(bs.value) == Wire(s, noise, cs) && Payloads(cs) == ps
    decreases |ps|
  {
    hide SealChunk;
    if ps != [] {
      var (b, l1) := SealChunk(s, l, noise, ps[0]);
      SealAllSends(s, l1, noise, ps[1..]);
      var rest, cs := SealAll(s, l1, noise, ps[1..]).0.value, Sealed(s, l1, noise, ps[1..]).0;
      assert ([b.value] + rest)[1..] == rest && ([Chunk(l, ps[0])] + cs)[1..] == cs;
      assert Payloads([Chunk(l, ps[0])] + cs) == [ps[0]] + Payloads(cs);
    }
  }

  /** Pieces that always fit are never refused. */
  lemma {:induction false} SealAllFits(s: Setup, l: Lane, noise: Noise, ps: seq<Bytes>)
    requires Ready(s, l, noise) && forall i :: 0 <= i < |ps| ==> Fits(s, ps[i])
    ensures SealAll(s, l, noise, ps).0.Some?
    decreases |ps|
  {
    hide SealChunk;
    if ps != [] {
      SealChunkFits(s, l, noise, ps[0]);
      SealAllFits(s, SealChunk(s, l, noise, ps[0]).1, noise, ps[1..]);
    }
  }

  /** writePacket sends what is sealed of its packets that are not empty. */
  lemma {:induction false} SealPacketsSends(s: Setup, l: Lane, noise: Noise, ps: seq<Bytes>)
    ensures var (bs, l1) := SealPackets(s, l, noise, ps);
            var (cs, l2) := Sealed(s, l, noise, NonEmpty(ps));
            l1 == l2 && Flat(bs) == Wire(s, noise, cs)
    decreases |ps|
  {
    hide SealChunk;
    if ps != [] {
      if ps[0] == [] {
        SealPacketsSends(s, l, noise, ps[1..]);
      } else {
        var (b, l1) := SealChunk(s, l, noise, ps[0]);
        SealPacketsSends(s, l1, noise, ps[1..]);
        assert NonEmpty(ps)[0] == ps[0] && NonEmpty(ps)[1..] == NonEmpty(ps[1..]);
        var rest, cs := SealPackets(s, l1, noise, ps[1..]).0, Sealed(s, l1, noise, NonEmpty(ps[1..])).0;
        if b.Some? {
          assert ([b.value] + rest)[1..] == rest && ([Chunk(l, ps[0])] + cs)[1..] == cs;
        } else {
          assert [] + cs == cs;
        }
      }
    }
  }

  // ---- One chunk, read back ----

  /** The word of the keystream that masks the size of the next chunk. */
  function Mask(s: Setup, l: Lane): uint16 {
    s.words(NextPadding(s, l).1.draws)
  }

  /** A reader at l that can make out where chunks begin: at each it comes to the nonces, and to the mask
      if sizes are masked, that the chunk was sealed with. */
  ghost predicate InTune(s: Setup, l: Lane, noise: Noise, cs: seq<Chunk>)
    decreases |cs|
  {
    cs == [] ||
    (&& SameNonces(cs[0].at, l) && SealChunk(s, cs[0].at, noise, cs[0].payload).0.Some?
     && (s.size.Masked? ==> Mask(s, cs[0].at) == Mask(s, l))
     && InTune(s, Past(s, l), noise, cs[1..]))
  }

  /** The size field of the first chunk is read; its sealed payload, its padding, the other chunks and
      `tail` lie ahead of st. The padding is what the reader, who stood at l, has drawn. */
  ghost predicate BodyAhead(s: Setup, l: Lane, st: Streams.State, noise: Noise, cs: seq<Chunk>, tail: Bytes,
                            size: uint16, padding: uint16)
    requires cs != []
  {
    var c := Seal(s, PastSize(s, l), cs[0].payload).0;
    var p := Streams.Pending(st);
    && size == |cs[0].payload| + s.aead.overhead + NextPadding(s, cs[0].at).0 && SizeBytes(s) + size <= SIZE
    && padding == NextPadding(s, l).0
    && c.Some? && |p| >= size && c.value <= p && p[size..] == Wire(s, noise, cs[1..]) + tail
  }

  /** The chunks cs and then `tail` lie ahead of the reader, who is about to read the first of them from l.
      With a size read ahead, the size field of that chunk is behind it already. */
  ghost predicate Facing(s: Setup, r: Reader, l: Lane, noise: Noise, cs: seq<Chunk>, tail: Bytes) {
    && r.stream.end != NoError && !r.done && Ready(s, l, noise) && InTune(s, l, noise, cs)
    && if !r.hasSize then r.lane == l && Streams.Pending(r.stream) == Wire(s, noise, cs) + tail
       else cs != [] && r.lane == PastSize(s, l) && BodyAhead(s, l, r.stream, noise, cs, tail, r.size, r.padding)
  }

  /** The reader makes of the chunk what the sealer made it of: it draws the padding that was drawn for
      it. There is one accident that is as good: a payload chunk with padding, where the reader draws the
      whole chunk and that padding over again, and BytesTo counts back from the end. */
  predicate Heard(s: Setup, c: Chunk, l: Lane) {
    var sent, drawn := NextPadding(s, c.at).0, NextPadding(s, l).0;
    drawn == sent || (c.payload != [] && sent > 0 && drawn == |c.payload| + s.aead.overhead + 2 * sent)
  }

  /** Every chunk is, by a reader who starts at l. */
  predicate AllHeard(s: Setup, l: Lane, cs: seq<Chunk>)
    decreases |cs|
  {
    cs == [] || (Heard(s, cs[0], l) && AllHeard(s, Past(s, l), cs[1..]))
  }

  /** Sizes are encoded alike at places with the same nonces and the same mask. */
  lemma EncodeAlike(s: Setup, l: Lane, m: Lane, n: uint16)
    requires SameNonces(l, m) && (s.size.Masked? ==> s.words(l.draws) == s.words(m.draws))
    ensures EncodeSize(s, l, n).0 == EncodeSize(s, m, n).0
  {
  }

  /** The first chunk on the wire: its size field, which the reader decodes, then `rest`, the body and the
      other chunks. */
  lemma WireHead(s: Setup, l: Lane, noise: Noise, cs: seq<Chunk>) returns (head: Bytes, size: uint16, rest: Bytes)
    requires Ready(s, l, noise) && InTune(s, l, noise, cs) && cs != []
    ensures |head| == SizeBytes(s) && Wire(s, noise, cs) == head + rest
    ensures DecodeSize(s, NextPadding(s, l).1, head) == (Some(size), PastSize(s, l))
    ensures var c, sent := Seal(s, PastSize(s, l), cs[0].payload).0, NextPadding(s, cs[0].at).0;
            && size == |cs[0].payload| + s.aead.overhead + sent && SizeBytes(s) + size <= SIZE
            && c.Some? && |c.value| == |cs[0].payload| + s.aead.overhead
            && exists z: Bytes :: |z| == sent && rest == c.value + z + Wire(s, noise, cs[1..])
  {
    hide EncodeSize, DecodeSize, SealChunk, PastSize;
    var at, b := cs[0].at, cs[0].payload;
    assert Ready(s, at, noise);
    TakenSteps(s, at, noise, b);
    PastSame(s, at, l);
    var sent := NextPadding(s, at).0;
    size := |b| + s.aead.overhead + sent;
    EncodeAlike(s, NextPadding(s, at).1, NextPadding(s, l).1, size);
    SizeRoundTrip(s, NextPadding(s, l).1, size);
    EncodeMoves(s, NextPadding(s, l).1, size);
    assert DecodeSize(s, NextPadding(s, l).1, EncodeSize(s, NextPadding(s, l).1, size).0.value).1 == PastSize(s, l) by {
      PastSizeIs(s, l);
    }
    var c, z := Seal(s, PastSize(s, l), b).0, noise(at.draws, sent);
    head := EncodeSize(s, NextPadding(s, at).1, size).0.value;
    rest := c.value + z + Wire(s, noise, cs[1..]);
    Cut4(head, c.value, z, Wire(s, noise, cs[1..]));
  }

  lemma PastSizeIs(s: Setup, l: Lane)
    ensures PastSize(s, l) == EncodeSize(s, NextPadding(s, l).1, 0).1
  {
  }

  lemma Cut4(a: Bytes, b: Bytes, c: Bytes, d: Bytes)
    ensures a + b + c + d == a + (b + c + d)
  {
  }

  lemma BodyFollows(s: Setup, l: Lane, st: Streams.State, noise: Noise, cs: seq<Chunk>, tail: Bytes,
                    size: uint16, rest: Bytes)
    requires cs != [] && Streams.Pending(st) == rest + tail
    requires var c, sent := Seal(s, PastSize(s, l), cs[0].payload).0, NextPadding(s, cs[0].at).0;
             && size == |cs[0].payload| + s.aead.overhead + sent && SizeBytes(s) + size <= SIZE
             && c.Some? && |c.value| == |cs[0].payload| + s.aead.overhead
             && exists z: Bytes :: |z| == sent && rest == c.value + z + Wire(s, noise, cs[1..])
    ensures BodyAhead(s, l, st, noise, cs, tail, size, NextPadding(s, l).0)
  {
    hide Wire, Seal, PastSize, NextPadding, SizeBytes, Streams.Pending;
    var c, more := Seal(s, PastSize(s, l), cs[0].payload).0.value, Wire(s, noise, cs[1..]);
    var z: Bytes :| |z| == NextPadding(s, cs[0].at).0 && rest == c + z + more;
    assert rest + tail == c + (z + more + tail);
    assert rest + tail == (c + z) + (more + tail);
  }

  lemma ReadSizeStep(s: Setup, r: Reader, l: Lane, noise: Noise, cs: seq<Chunk>, tail: Bytes)
    requires Facing(s, r, l, noise, cs, tail) && cs != []
    ensures var (r1, size, padding, err) := ReadSize(s, r);
            && err == NoError && r1.stream.end == r.stream.end && !r1.hasSize && !r1.done
            && r1.lane == PastSize(s, l) && BodyAhead(s, l, r1.stream, noise, cs, tail, size, padding)
            && (r.hasSize ==> size == r.size && padding == r.padding && r1 == r.(hasSize := false))
  {
    hide Wire, Seal, EncodeSize, DecodeSize, NextPadding, SizeBytes, PastSize, Streams.ReadFull, Streams.Pending;
    if !r.hasSize {
      var head, size, rest := WireHead(s, l, noise, cs);
      assert Streams.Pending(r.stream) == head + (rest + tail);
      Streams.ReadFullDelivers(r.stream, SizeBytes(s));
      var (st, b, err) := Streams.ReadFull(r.stream, SizeBytes(s));
      CutFront(b, Streams.Pending(st), head, rest + tail);
      assert head[|b|..] + (rest + tail) == rest + tail;
      BodyFollows(s, l, st, noise, cs, tail, size, rest);
    }
  }

  /** With the whole chunk there, what is delivered is its payload exactly when the right part of it is
      taken for the sealed payload. */
  lemma ReadChunkStep(s: Setup, r: Reader, l: Lane, noise: Noise, cs: seq<Chunk>, tail: Bytes,
                      size: uint16, padding: uint16)
    requires r.stream.end != NoError && Ready(s, l, noise) && InTune(s, l, noise, cs) && !r.done && !r.hasSize
    requires cs != [] && r.lane == PastSize(s, l) && BodyAhead(s, l, r.stream, noise, cs, tail, size, padding)
    ensures var (r1, p, err) := ReadChunk(s, r, size, padding);
            if SealedEnd(size, padding) == Some(|cs[0].payload| + s.aead.overhead)
            then err == NoError && p == Some(cs[0].payload) && Facing(s, r1, Past(s, l), noise, cs[1..], tail)
            else err != EOF && err != SOFT && p != Some(cs[0].payload)
  {
    hide InTune, Wire, PastSize, NextPadding, SizeBytes, Streams.ReadFull, Streams.Pending;
    NotSoft();
    PastReady(s, l, noise);
    SealRoundTrip(s, r.lane, cs[0].payload);
    Streams.ReadFullDelivers(r.stream, size);
    var (st, block, err) := Streams.ReadFull(r.stream, size);
    var p, c := Streams.Pending(r.stream), Seal(s, r.lane, cs[0].payload).0.value;
    assert block == p[..size] && Streams.Pending(st) == p[size..];
    if SealedEnd(size, padding) == Some(|c|) {
      assert block[..|c|] == c;
      assert InTune(s, Past(s, l), noise, cs[1..]) by { InTuneRest(s, l, noise, cs); }
    }
  }

  lemma InTuneRest(s: Setup, l: Lane, noise: Noise, cs: seq<Chunk>)
    requires InTune(s, l, noise, cs) && cs != []
    ensures InTune(s, Past(s, l), noise, cs[1..])
  {
  }

  /** The tests of the source compare 16-bit sums. On a chunk that was sealed they tell the end from a
      payload, and find the sealed part, exactly if the chunk is heard. */
  lemma HeardIff(s: Setup, l: Lane, c: Chunk, size: uint16, padding: uint16)
    requires size == |c.payload| + s.aead.overhead + NextPadding(s, c.at).0 && SizeBytes(s) + size <= SIZE
    requires padding == NextPadding(s, l).0
    ensures c.payload == [] ==> (size == (s.aead.overhead + padding) % 0x1_0000 <==> Heard(s, c, l))
    ensures c.payload != [] ==>
              (Heard(s, c, l) <==>
                 && size != (s.aead.overhead + padding) % 0x1_0000
                 && SealedEnd(size, padding) == Some(|c.payload| + s.aead.overhead))
  {
    hide NextPadding, SizeBytes;
  }

  /** One read of a chunk. A soft read that gives up changes nothing of what is ahead. A chunk that is
      heard is delivered, or ends the stream if it is the empty one, and no other chunk does. One that is
      not heard never passes for what it was. */
  lemma ReadInternalStep(s: Setup, r: Reader, l: Lane, noise: Noise, cs: seq<Chunk>, tail: Bytes, soft: bool)
    requires Facing(s, r, l, noise, cs, tail) && cs != []
    ensures var (r1, p, err) := ReadInternal(s, r, soft);
            && r1.stream.end == r.stream.end
            && (err == SOFT ==> soft && Facing(s, r1, l, noise, cs, tail))
            && (err != SOFT && Heard(s, cs[0], l) ==>
                  if cs[0].payload == [] then err == EOF && r1.done && r1.lane == PastSize(s, l)
                  else err == NoError && p == Some(cs[0].payload) && Facing(s, r1, Past(s, l), noise, cs[1..], tail))
            && (err != SOFT && !Heard(s, cs[0], l) ==>
                  && (err == EOF ==> cs[0].payload != [] && r1.done)
                  && (err == NoError ==> cs[0].payload == [] || p != Some(cs[0].payload)))
  {
    hide BodyAhead, ReadChunk, ReadSize, Wire, InTune, PastSize, Past, Heard, SealedEnd, Ready, NextPadding, Weight,
         Streams.Pending;
    ReadInternalProgress(s, r, soft);
    NotSoft();
    if !(soft && |Flat(r.stream.buffer)| < SizeBytes(s)) {
      ReadSizeStep(s, r, l, noise, cs, tail);
      ReadSizeKeepsEnd(s, r);
      var (r1, size, padding, err) := ReadSize(s, r);
      BodySizes(s, l, r1.stream, noise, cs, tail, size, padding);
      HeardIff(s, l, cs[0], size, padding);
      ReadChunkStep(s, r1, l, noise, cs, tail, size, padding);
    }
  }

  lemma BodySizes(s: Setup, l: Lane, st: Streams.State, noise: Noise, cs: seq<Chunk>, tail: Bytes,
                  size: uint16, padding: uint16)
    requires cs != [] && BodyAhead(s, l, st, noise, cs, tail, size, padding)
    ensures size == |cs[0].payload| + s.aead.overhead + NextPadding(s, cs[0].at).0 && SizeBytes(s) + size <= SIZE
    ensures padding == NextPadding(s, l).0
  {
  }

  // ---- All chunks ----

  /** Payload chunks, and the empty chunk that ends the stream. */
  predicate Whole(body: seq<Chunk>, end: Chunk) {
    end.payload == [] && forall i :: 0 <= i < |body| ==> body[i].payload != []
  }

  /** Where a reader is that set out at l with this ahead of it, once it has delivered qs: on its way, at
      the end, or beyond help. */
  ghost predicate Reached(s: Setup, r: Reader, l: Lane, noise: Noise, body: seq<Chunk>, end: Chunk, tail: Bytes,
                          qs: seq<Bytes>)
  {
    var heard := AllHeard(s, l, body + [end]);
    && r.stream.end != NoError
    && if qs <= Payloads(body) then
         if r.done then (heard <==> qs == Payloads(body)) && (heard ==> r.lane == PastSize(s, Nth(s, l, |body|)))
         else
           && Facing(s, r, Nth(s, l, |qs|), noise, body[|qs|..] + [end], tail)
           && (heard <==> AllHeard(s, Nth(s, l, |qs|), body[|qs|..] + [end]))
       else !heard
  }

  lemma ReachedStart(s: Setup, r: Reader, l: Lane, noise: Noise, body: seq<Chunk>, end: Chunk, tail: Bytes)
    requires Facing(s, r, l, noise, body + [end], tail)
    ensures Reached(s, r, l, noise, body, end, tail, [])
  {
    hide InTune;
    assert body[0..] == body && [] <= Payloads(body);
  }

  /** One payload more at the front. */
  lemma ReachedCons(s: Setup, r: Reader, l: Lane, noise: Noise, body: seq<Chunk>, end: Chunk, tail: Bytes,
                    qs: seq<Bytes>)
    requires body != [] && Heard(s, body[0], l) && Reached(s, r, Past(s, l), noise, body[1..], end, tail, qs)
    ensures Reached(s, r, l, noise, body, end, tail, [body[0].payload] + qs)
  {
    hide Facing, Heard, Past, PastSize;
    var all := [body[0].payload] + qs;
    assert Payloads(body) == [body[0].payload] + Payloads(body[1..]);
    assert all[1..] == qs && Payloads(body)[1..] == Payloads(body[1..]);
    assert qs <= Payloads(body[1..]) <==> all <= Payloads(body) by {
      assert all <= Payloads(body) ==> all[1..] <= Payloads(body)[1..];
    }
    assert (body + [end])[0] == body[0] && (body + [end])[1..] == body[1..] + [end];
    if qs <= Payloads(body[1..]) {
      assert body[1..][|qs|..] == body[|all|..];
    }
  }

  /** The soft reads of one call. They fail only where a chunk is not heard. */
  lemma {:induction false} ReadMoreStep(s: Setup, r: Reader, l: Lane, noise: Noise, body: seq<Chunk>, end: Chunk,
                                        tail: Bytes, k: nat)
    requires Facing(s, r, l, noise, body + [end], tail) && Whole(body, end)
    ensures r.stream.end != NoError
    ensures var (r1, qs, err) := ReadMore(s, r, k);
            if err == NoError then Reached(s, r1, l, noise, body, end, tail, qs)
            else err != EOF && !AllHeard(s, l, body + [end])
    decreases k
  {
    hide ReadInternal, Weight, InTune, Heard, Past, PastSize, BodyAhead, Wire;
    var cs := body + [end];
    if k > 0 {
      ReadInternalProgress(s, r, true);
      ReadInternalStep(s, r, l, noise, cs, tail, true);
      var (r1, p, err) := ReadInternal(s, r, true);
      if err == SOFT {
        ReachedStart(s, r1, l, noise, body, end, tail);
      } else if err == EOF {
        ReachedEnd(s, r1, l, noise, body, end, tail);
      } else if err == NoError {
        if Heard(s, cs[0], l) {
          assert cs[1..] == body[1..] + [end];
          ReadMoreStep(s, r1, Past(s, l), noise, body[1..], end, tail, k - 1);
          var (r2, qs, err2) := ReadMore(s, r1, k - 1);
          if err2 == NoError {
            ReachedCons(s, r2, l, noise, body, end, tail, qs);
          }
        } else {
          ReadMoreProgress(s, r1, k - 1);
          var (r2, qs, err2) := ReadMore(s, r1, k - 1);
          assert ([p.value] + qs)[0] == p.value;
          assert Payloads(body) != [] ==> Payloads(body)[0] == cs[0].payload != [];
        }
      }
    } else {
      ReachedStart(s, r, l, noise, body, end, tail);
    }
  }

  /** A read that found the end: of the stream, or what it took for the end. */
  lemma ReachedEnd(s: Setup, r: Reader, l: Lane, noise: Noise, body: seq<Chunk>, end: Chunk, tail: Bytes)
    requires Whole(body, end) && r.stream.end != NoError && r.done
    requires Heard(s, (body + [end])[0], l) ==> body == [] && r.lane == PastSize(s, l)
    requires !Heard(s, (body + [end])[0], l) ==> body != []
    ensures Reached(s, r, l, noise, body, end, tail, [])
  {
    hide Heard, PastSize;
    var none: seq<Bytes> := [];
    assert none <= Payloads(body);
    if body == [] {
      assert (body + [end])[1..] == [] && AllHeard(s, Past(s, l), []);
      assert Nth(s, l, 0) == l && Payloads(body) == none;
    } else {
      assert Payloads(body) != [] && (body + [end])[0] == body[0];
    }
  }

  /** One call delivers at least one payload, each in an entry of its own, or EOF after the last; and only
      where a chunk is not heard anything else. */
  lemma ReadStep(s: Setup, r: Reader, l: Lane, noise: Noise, body: seq<Chunk>, end: Chunk, tail: Bytes)
    requires Facing(s, r, l, noise, body + [end], tail) && Whole(body, end)
    ensures r.stream.end != NoError
    ensures var (r1, qs, err) := ReadMultiBuffer(s, r);
            if err == NoError then qs != [] && Reached(s, r1, l, noise, body, end, tail, qs)
            else qs == [] && if AllHeard(s, l, body + [end])
                             then body == [] && err == EOF && r1.lane == PastSize(s, l)
                             else body == [] ==> err != EOF
  {
    hide ReadInternal, ReadMore, Weight, InTune, Heard, Past, PastSize, BodyAhead, Wire;
    var cs := body + [end];
    ReadInternalProgress(s, r, false);
    ReadInternalStep(s, r, l, noise, cs, tail, false);
    var (r1, p, err) := ReadInternal(s, r, false);
    if err == NoError {
      ReadMoreProgress(s, r1, READ_SIZE - 1);
      var (r2, qs, err2) := ReadMore(s, r1, READ_SIZE - 1);
      if Heard(s, cs[0], l) {
        assert cs[1..] == body[1..] + [end];
        ReadMoreStep(s, r1, Past(s, l), noise, body[1..], end, tail, READ_SIZE - 1);
        if err2 == NoError {
          ReachedCons(s, r2, l, noise, body, end, tail, qs);
        }
      } else {
        assert ([p.value] + qs)[0] == p.value;
        assert Payloads(body) != [] ==> Payloads(body)[0] == cs[0].payload != [];
      }
    } else {
      assert cs[0] == if body == [] then end else body[0];
      assert body == [] ==> cs[1..] == [] && AllHeard(s, Past(s, l), []);
    }
  }

  /** Once the end was read there is nothing more. */
  lemma ReadAllDone(s: Setup, r: Reader)
    requires r.stream.end != NoError && r.done
    ensures ReadAll(s, r) == (r, [], EOF)
  {
    NotSoft();
    ReadProgress(s, r);
    assert ReadMultiBuffer(s, r) == (r, [], EOF);
  }

  /** Reading to the end delivers exactly the payloads, one list entry each, and then EOF, whatever the
      segmentation and however often soft reads gave up: if and only if every chunk is heard. The reader
      ends past the size of the last chunk, whose payload it does not open. */
  lemma {:induction false} ReadAllIff(s: Setup, r: Reader, l: Lane, noise: Noise, body: seq<Chunk>, end: Chunk,
                                      tail: Bytes)
    requires Facing(s, r, l, noise, body + [end], tail) && Whole(body, end)
    ensures r.stream.end != NoError
    ensures var (r', ps, err) := ReadAll(s, r);
            && (ps == Payloads(body) && err == EOF <==> AllHeard(s, l, body + [end]))
            && (AllHeard(s, l, body + [end]) ==> r'.lane == PastSize(s, Nth(s, l, |body|)))
    decreases |body|
  {
    hide Facing, ReadMultiBuffer, Weight, Heard, Past, PastSize, AllHeard;
    assert r.stream.end != NoError by { FacingEnd(s, r, l, noise, body + [end], tail); }
    ReadProgress(s, r);
    ReadStep(s, r, l, noise, body, end, tail);
    var (r1, qs, err) := ReadMultiBuffer(s, r);
    if err == NoError {
      var (r2, more, err2) := ReadAll(s, r1);
      if qs <= Payloads(body) {
        assert Payloads(body) == qs + Payloads(body)[|qs|..];
        if r1.done {
          ReadAllDone(s, r1);
        } else {
          ReadAllIff(s, r1, Nth(s, l, |qs|), noise, body[|qs|..], end, tail);
          assert Payloads(body[|qs|..]) == Payloads(body)[|qs|..];
          assert (qs + more)[|qs|..] == more;
          NthNth(s, l, |qs|, |body| - |qs|);
        }
      } else {
        assert qs <= qs + more;
      }
    } else {
      assert body != [] ==> Payloads(body) != [];
    }
  }

  lemma FacingEnd(s: Setup, r: Reader, l: Lane, noise: Noise, cs: seq<Chunk>, tail: Bytes)
    requires Facing(s, r, l, noise, cs, tail)
    ensures r.stream.end != NoError
  {
  }

  lemma {:induction false} NthNth(s: Setup, l: Lane, m: nat, n: nat)
    ensures Nth(s, Nth(s, l, m), n) == Nth(s, l, m + n)
    decreases m
  {
    if m > 0 {
      NthNth(s, Past(s, l), m - 1, n);
    }
  }
}
