/** Authenticated streams that are cut off: what is read of a front part of one, and how it ends. */
module AuthCuts {
  import opened Arrivals
  import opened Auth
  import opened AuthWires
  import opened Bytes
  import opened Sealing
  import Buffers
  import Streams

  /** The error a reader ends with that finds only `front` of the chunk c, the transport having ended with
      `end`. A size alone is enough of the chunk that ends the stream. */
  function CutError(s: Setup, c: Chunk, front: Bytes, end: Error): Error {
    var n := SizeBytes(s);
    if |front| >= n && c.payload == [] then EOF
    else if end == EOF && front != [] && |front| != n then UnexpectedEOF
    else end
  }

  /** On any input, well formed or not, a read ends cleanly in four cases only: the end was read before;
      nothing is left between two chunks; the size is that of the empty chunk; nothing is left after the
      size of another. What is tampered with, or cut off anywhere else, never ends cleanly. */
  lemma CleanEndIff(s: Setup, r: Reader)
    requires r.stream.end != NoError
    ensures var (r1, size, padding, err) := ReadSize(s, r);
            ReadInternal(s, r, false).2 == EOF <==>
              || r.done
              || (!r.hasSize && Streams.Pending(r.stream) == [] && r.stream.end == EOF)
              || (err == NoError && size == (s.aead.overhead + padding) % 0x1_0000)
              || (err == NoError && size > 0 && Streams.Pending(r1.stream) == [] && r.stream.end == EOF)
  {
    hide Streams.ReadFull, Streams.Pending, NextPadding, DecodeSize, ReadChunk;
    ReadSizeKeepsEnd(s, r);
    assert SizeBytes(s) > 0;
    Streams.ReadFullDelivers(r.stream, SizeBytes(s));
    var (r1, size, padding, err) := ReadSize(s, r);
    ChunkEndsIff(s, r1, size, padding);
  }

  lemma ChunkEndsIff(s: Setup, r: Reader, size: uint16, padding: uint16)
    requires r.stream.end != NoError
    ensures ReadChunk(s, r, size, padding).2 == EOF <==>
              size > 0 && Streams.Pending(r.stream) == [] && r.stream.end == EOF
  {
    hide Streams.ReadFull, Streams.Pending, Open, SealedEnd;
    Streams.ReadFullDelivers(r.stream, size);
  }

  // ---- At the cut ----

  /** All that is ahead of the reader, who is about to read the chunk c from l, is `front` of it; with a
      size read ahead, what follows the size field. */
  ghost predicate AtCut(s: Setup, r: Reader, l: Lane, noise: Noise, c: Chunk, front: Bytes) {
    && r.stream.end != NoError && !r.done && Ready(s, l, noise) && InTune(s, l, noise, [c]) && Heard(s, c, l)
    && front < ChunkBytes(s, noise, c)
    && if !r.hasSize then r.lane == l && Streams.Pending(r.stream) == front
       else
         && r.lane == PastSize(s, l) && c.payload != [] && SizedCut(s, r.stream, l, c, front, r.size, r.padding)
  }

  /** The size field is behind the reader, and the body is not all there. */
  ghost predicate SizedCut(s: Setup, st: Streams.State, l: Lane, c: Chunk, front: Bytes, size: uint16,
                           padding: uint16) {
    && |front| >= SizeBytes(s) && Streams.Pending(st) == front[SizeBytes(s)..]
    && |Streams.Pending(st)| < size && SizeBytes(s) + size <= Buffers.SIZE
    && size == |c.payload| + s.aead.overhead + NextPadding(s, c.at).0 && padding == NextPadding(s, l).0
  }

  lemma OneChunk(s: Setup, noise: Noise, c: Chunk)
    ensures [c][1..] == [] && Wire(s, noise, [c]) == ChunkBytes(s, noise, c)
  {
    assert Wire(s, noise, [c]) == ChunkBytes(s, noise, c) + [];
  }

  lemma SizeAtCut(s: Setup, r: Reader, l: Lane, noise: Noise, c: Chunk, front: Bytes)
    requires AtCut(s, r, l, noise, c, front)
    ensures var (r1, size, padding, err) := ReadSize(s, r);
            && r1.stream.end == r.stream.end && (err == NoError <==> r.hasSize || |front| >= SizeBytes(s))
            && (err != NoError ==> err == CutError(s, c, front, r.stream.end))
            && (err == NoError ==>
                  && r1.lane == PastSize(s, l) && !r1.hasSize && !r1.done
                  && SizedCut(s, r1.stream, l, c, front, size, padding))
  {
    hide EncodeSize, DecodeSize, NextPadding, SizeBytes, PastSize, ChunkBytes, Wire, Streams.ReadFull, Streams.Pending;
    if !r.hasSize {
      OneChunk(s, noise, c);
      var head, size, rest := WireHead(s, l, noise, [c]);
      var n := SizeBytes(s);
      Streams.ReadFullDelivers(r.stream, n);
      var (st, b, err) := Streams.ReadFull(r.stream, n);
      if |front| >= n {
        assert (head + rest)[..n] == head && front[..n] == (head + rest)[..n];
        assert b == head;
        assert (b + Streams.Pending(st))[n..] == Streams.Pending(st);
        assert |rest| == size by { RestSize(s, l, noise, c, size, rest); }
      }
    }
  }

  lemma RestSize(s: Setup, l: Lane, noise: Noise, c: Chunk, size: uint16, rest: Bytes)
    requires var d, sent := Seal(s, PastSize(s, l), c.payload).0, NextPadding(s, c.at).0;
             && size == |c.payload| + s.aead.overhead + sent
             && d.Some? && |d.value| == |c.payload| + s.aead.overhead
             && exists z: Bytes :: |z| == sent && rest == d.value + z + Wire(s, noise, [c][1..])
    ensures |rest| == size
  {
  }

  lemma BodyAtCut(s: Setup, r: Reader, l: Lane, c: Chunk, front: Bytes, size: uint16, padding: uint16, soft: bool)
    requires r.stream.end != NoError && Heard(s, c, l) && SizedCut(s, r.stream, l, c, front, size, padding)
    ensures var (r1, p, err) := ReadBody(s, r, soft, size, padding);
            if c.payload == [] then err == EOF && r1.done
            else if soft then err == SOFT && r1 == r.(size := size, padding := padding, hasSize := true)
            else err == CutError(s, c, front, r.stream.end)
  {
    hide NextPadding, SizeBytes, Heard, Open, SealedEnd, Streams.ReadFull;
    HeardIff(s, l, c, size, padding);
    Streams.ReadFullDelivers(r.stream, size);
  }

  /** One read there. A soft one gives up, unless it finds the end of the stream; any other fails. */
  lemma CutStep(s: Setup, r: Reader, l: Lane, noise: Noise, c: Chunk, front: Bytes, soft: bool)
    requires AtCut(s, r, l, noise, c, front)
    ensures var (r1, p, err) := ReadInternal(s, r, soft);
            && r1.stream.end == r.stream.end && err != NoError
            && (soft && err == SOFT ==> AtCut(s, r1, l, noise, c, front))
            && (soft && err != SOFT ==> err == EOF && r1.done)
            && (!soft || err != SOFT ==> err == CutError(s, c, front, r.stream.end))
  {
    hide ReadSize, ReadBody, SizeBytes, PastSize, ChunkBytes, InTune, Heard, Ready;
    NotSoft();
    ReadInternalProgress(s, r, soft);
    if !(soft && |Flat(r.stream.buffer)| < SizeBytes(s)) {
      SizeAtCut(s, r, l, noise, c, front);
      var (r1, size, padding, err) := ReadSize(s, r);
      if err == NoError {
        BodyAtCut(s, r1, l, c, front, size, padding, soft);
      }
    }
  }

  // ---- Up to the cut ----

  /** Whole payload chunks, and then `front` of c, are ahead of the reader, who is about to read the first of
      them from l. */
  ghost predicate Before(s: Setup, r: Reader, l: Lane, noise: Noise, body: seq<Chunk>, c: Chunk, front: Bytes) {
    && r.stream.end != NoError && InTune(s, l, noise, body + [c]) && AllHeard(s, l, body + [c])
    && (forall i :: 0 <= i < |body| ==> body[i].payload != []) && front < ChunkBytes(s, noise, c)
    && if body == [] then AtCut(s, r, l, noise, c, front) else Facing(s, r, l, noise, body, front)
  }

  lemma {:induction false} InTuneFront(s: Setup, l: Lane, noise: Noise, a: seq<Chunk>, b: seq<Chunk>)
    requires InTune(s, l, noise, a + b)
    ensures InTune(s, l, noise, a)
    decreases |a|
  {
    hide SealChunk, Mask, Past;
    if a != [] {
      assert (a + b)[0] == a[0] && (a + b)[1..] == a[1..] + b;
      InTuneFront(s, Past(s, l), noise, a[1..], b);
    }
  }

  /** A whole chunk is delivered, or a soft read gives up. */
  lemma WholeStep(s: Setup, r: Reader, l: Lane, noise: Noise, body: seq<Chunk>, c: Chunk, front: Bytes, soft: bool)
    requires Before(s, r, l, noise, body, c, front) && body != []
    ensures var (r1, p, err) := ReadInternal(s, r, soft);
            && r1.stream.end == r.stream.end
            && (err == SOFT ==> soft && Before(s, r1, l, noise, body, c, front))
            && (err != SOFT ==>
                  err == NoError && p == Some(body[0].payload)
                  && Before(s, r1, Past(s, l), noise, body[1..], c, front))
  {
    hide ReadInternal, BodyAhead, Heard, ChunkBytes, PastSize, Past, SealChunk, Ready, Mask;
    ReadInternalStep(s, r, l, noise, body, front, soft);
    var (r1, p, err) := ReadInternal(s, r, soft);
    var cs := body + [c];
    assert cs[0] == body[0] && cs[1..] == body[1..] + [c];
    if err != SOFT && body[1..] == [] {
      assert cs[1..] == [c];
      FacedAtCut(s, r1, Past(s, l), noise, c, front);
    }
  }

  lemma FacedAtCut(s: Setup, r: Reader, l: Lane, noise: Noise, c: Chunk, front: Bytes)
    requires Facing(s, r, l, noise, [], front) && InTune(s, l, noise, [c]) && AllHeard(s, l, [c])
    requires front < ChunkBytes(s, noise, c)
    ensures AtCut(s, r, l, noise, c, front)
  {
    hide Heard, ChunkBytes, PastSize, Past, Ready;
    assert [c][0] == c && Wire(s, noise, []) + front == front;
  }

  /** Where a reader is that set out before the cut, once it has delivered qs. */
  ghost predicate CutReached(s: Setup, r: Reader, l: Lane, noise: Noise, body: seq<Chunk>, c: Chunk, front: Bytes,
                             qs: seq<Bytes>)
  {
    && qs <= Payloads(body) && r.stream.end != NoError
    && if r.done then qs == Payloads(body) && CutError(s, c, front, r.stream.end) == EOF
       else Before(s, r, Nth(s, l, |qs|), noise, body[|qs|..], c, front)
  }

  lemma CutReachedStart(s: Setup, r: Reader, l: Lane, noise: Noise, body: seq<Chunk>, c: Chunk, front: Bytes)
    requires Before(s, r, l, noise, body, c, front)
    ensures CutReached(s, r, l, noise, body, c, front, [])
  {
    hide InTune, AllHeard, ChunkBytes, BodyAhead, SizedCut, PastSize, Ready, Heard;
    assert body[0..] == body && [] <= Payloads(body);
  }

  lemma CutReachedCons(s: Setup, r: Reader, l: Lane, noise: Noise, body: seq<Chunk>, c: Chunk, front: Bytes,
                       qs: seq<Bytes>)
    requires body != [] && CutReached(s, r, Past(s, l), noise, body[1..], c, front, qs)
    ensures CutReached(s, r, l, noise, body, c, front, [body[0].payload] + qs)
  {
    hide Before, Past, CutError;
    var all := [body[0].payload] + qs;
    assert Payloads(body) == [body[0].payload] + Payloads(body[1..]);
    assert body[1..][|qs|..] == body[|all|..];
  }

  /** The soft reads of one call never fail. */
  lemma {:induction false} CutMore(s: Setup, r: Reader, l: Lane, noise: Noise, body: seq<Chunk>, c: Chunk,
                                   front: Bytes, k: nat)
    requires Before(s, r, l, noise, body, c, front)
    ensures r.stream.end != NoError
    ensures var (r1, qs, err) := ReadMore(s, r, k);
            && err == NoError && r1.stream.end == r.stream.end && CutReached(s, r1, l, noise, body, c, front, qs)
    decreases k
  {
    hide ReadInternal, Weight, Past, CutError, AtCut, Facing, InTune, AllHeard, ChunkBytes;
    if k == 0 {
      CutReachedStart(s, r, l, noise, body, c, front);
    } else {
      ReadInternalProgress(s, r, true);
      var (r1, p, err) := ReadInternal(s, r, true);
      if body == [] {
        CutStep(s, r, l, noise, c, front, true);
        NotSoft();
        if err == SOFT {
          CutReachedStart(s, r1, l, noise, body, c, front);
        } else {
          assert [] <= Payloads(body) && Payloads(body) == [];
        }
      } else {
        WholeStep(s, r, l, noise, body, c, front, true);
        if err == SOFT {
          CutReachedStart(s, r1, l, noise, body, c, front);
        } else {
          CutMore(s, r1, Past(s, l), noise, body[1..], c, front, k - 1);
          CutReachedCons(s, ReadMore(s, r1, k - 1).0, l, noise, body, c, front, ReadMore(s, r1, k - 1).1);
        }
      }
    }
  }

  /** One call delivers whole chunks while there are any, and then fails as the cut has it. */
  lemma CutRead(s: Setup, r: Reader, l: Lane, noise: Noise, body: seq<Chunk>, c: Chunk, front: Bytes)
    requires Before(s, r, l, noise, body, c, front)
    ensures r.stream.end != NoError
    ensures var (r1, qs, err) := ReadMultiBuffer(s, r);
            && r1.stream.end == r.stream.end
            && if body == [] then qs == [] && err == CutError(s, c, front, r.stream.end) != NoError
               else err == NoError && qs != [] && CutReached(s, r1, l, noise, body, c, front, qs)
  {
    hide ReadInternal, ReadMore, Weight, Past, CutError, AtCut, Facing, InTune, AllHeard, ChunkBytes, CutReached;
    ReadInternalProgress(s, r, false);
    var (r1, p, err) := ReadInternal(s, r, false);
    if body == [] {
      CutStep(s, r, l, noise, c, front, false);
    } else {
      WholeStep(s, r, l, noise, body, c, front, false);
      CutMore(s, r1, Past(s, l), noise, body[1..], c, front, READ_SIZE - 1);
      var (r2, qs, err2) := ReadMore(s, r1, READ_SIZE - 1);
      CutReachedCons(s, r2, l, noise, body, c, front, qs);
    }
  }

  /** Reading to the end: the payloads of the whole chunks, and the error of the cut. */
  lemma {:induction false} CutReadAll(s: Setup, r: Reader, l: Lane, noise: Noise, body: seq<Chunk>, c: Chunk,
                                      front: Bytes)
    requires Before(s, r, l, noise, body, c, front)
    ensures r.stream.end != NoError
    ensures ReadAll(s, r).1 == Payloads(body) && ReadAll(s, r).2 == CutError(s, c, front, r.stream.end)
    decreases |body|
  {
    hide Before, ReadMultiBuffer, Weight, Past, CutError;
    CutRead(s, r, l, noise, body, c, front);
    ReadProgress(s, r);
    var (r1, qs, err) := ReadMultiBuffer(s, r);
    if body == [] {
      assert Payloads(body) == [];
    } else {
      assert Payloads(body) == qs + Payloads(body)[|qs|..];
      if r1.done {
        ReadAllDone(s, r1);
        assert qs + [] == qs;
      } else {
        CutReadAll(s, r1, Nth(s, l, |qs|), noise, body[|qs|..], c, front);
        assert Payloads(body[|qs|..]) == Payloads(body)[|qs|..];
      }
    }
  }

  // ---- Whole streams, cut off anywhere ----

  /** A proper front part of some chunks is whole chunks, and then a proper front part of one. */
  lemma {:induction false} CutSplits(s: Setup, noise: Noise, cs: seq<Chunk>, w: Bytes) returns (n: nat, front: Bytes)
    requires w < Wire(s, noise, cs)
    ensures n < |cs| && w == Wire(s, noise, cs[..n]) + front && front < ChunkBytes(s, noise, cs[n])
    decreases |cs|
  {
    hide ChunkBytes;
    var b, more := ChunkBytes(s, noise, cs[0]), Wire(s, noise, cs[1..]);
    assert Wire(s, noise, cs) == b + more;
    if |w| < |b| {
      n, front := 0, w;
      assert w == (b + more)[..|w|] == b[..|w|];
      assert Wire(s, noise, cs[..0]) + front == front;
    } else {
      assert w == (b + more)[..|w|] == b + more[..|w| - |b|];
      n, front := CutSplits(s, noise, cs[1..], more[..|w| - |b|]);
      assert cs[..n + 1] == [cs[0]] + cs[1..][..n];
      assert ([cs[0]] + cs[1..][..n])[1..] == cs[1..][..n];
      n := n + 1;
    }
  }

  lemma {:induction false} AllHeardFront(s: Setup, l: Lane, a: seq<Chunk>, b: seq<Chunk>)
    requires AllHeard(s, l, a + b)
    ensures AllHeard(s, l, a)
    decreases |a|
  {
    hide Heard, Past;
    if a != [] {
      assert (a + b)[0] == a[0] && (a + b)[1..] == a[1..] + b;
      AllHeardFront(s, Past(s, l), a[1..], b);
    }
  }

  /** A reader in step with the chunks, with a proper front part of them ahead of it and nothing more, is
      before the cut. */
  lemma CutFaced(s: Setup, r: Reader, l: Lane, noise: Noise, cs: seq<Chunk>, n: nat, front: Bytes)
    requires Ready(s, l, noise) && InTune(s, l, noise, cs) && AllHeard(s, l, cs) && n < |cs|
    requires forall i :: 0 <= i < n ==> cs[i].payload != []
    requires r.lane == l && !r.hasSize && !r.done && r.stream.end != NoError
    requires Streams.Pending(r.stream) == Wire(s, noise, cs[..n]) + front && front < ChunkBytes(s, noise, cs[n])
    ensures Before(s, r, l, noise, cs[..n], cs[n], front)
  {
    hide InTune, AllHeard, ChunkBytes, Wire, AtCut, BodyAhead, PastSize, Ready, Streams.Pending;
    var body, c := cs[..n], cs[n];
    assert body + [c] + cs[n + 1..] == cs;
    InTuneFront(s, l, noise, body + [c], cs[n + 1..]);
    AllHeardFront(s, l, body + [c], cs[n + 1..]);
    InTuneFront(s, l, noise, body, [c]);
    if body == [] {
      assert body + [c] == [c];
      assert Wire(s, noise, body) + front == front by { NothingSent(s, l, noise); }
      FacedAtCut(s, r, l, noise, c, front);
    }
  }

  /** The reader starts where the writer started, with less ahead of it than the writer wrote. */
  ghost predicate CutOff(s: Setup, l: Lane, noise: Noise, packets: bool, ws: seq<seq<Bytes>>, r: Reader) {
    && Ready(s, l, noise) && PayloadSize(s) > 0 && (forall i :: 0 <= i < |ws| ==> Flat(ws[i]) != [])
    && r.lane == l && !r.hasSize && !r.done && r.stream.end != NoError
    && var sent := Send(s, l, noise, packets, ws + [[]]).0;
       sent.Some? && Streams.Pending(r.stream) < sent.value
  }

  /** Its chunks, each heard by a reader who starts there. */
  lemma SentHeard(s: Setup, l: Lane, noise: Noise, packets: bool, ws: seq<seq<Bytes>>)
    requires Ready(s, l, noise) && PayloadSize(s) > 0 && forall i :: 0 <= i < |ws| ==> Flat(ws[i]) != []
    requires !s.padded || NoneRefused(s, l, noise, packets, ws)
    ensures var body, cs := Sent(s, l, noise, packets, ws), Sent(s, l, noise, packets, ws + [[]]);
            && InTune(s, l, noise, cs) && AllHeard(s, l, cs)
            && |cs| == |body| + 1 && cs[..|body|] == body && cs[|body|].payload == []
            && forall i :: 0 <= i < |body| ==> body[i].payload != []
  {
    hide InTune, AllHeard, MasksMatch, Sealed, AllParts, Ready, PayloadSize;
    StreamEnds(s, l, noise, packets, ws);
    AllPartsNonEmpty(s, packets, ws);
    InStep(s, l, noise, AllParts(s, packets, ws + [[]]));
    SealedInTune(s, l, l, noise, AllParts(s, packets, ws + [[]]));
  }

  /** A stream of which nothing is refused, or without padding, that is cut off anywhere before its last
      byte, whatever the segmentation: there are n whole chunks and `front` of the next. Exactly the
      payloads of the whole ones are delivered. If at least one byte of the size or of the body is there,
      and something of it is missing, the end is an unexpected one, or the error of the transport; at the
      boundaries, before a chunk and between its size and its body, it is what the transport said. Of
      the empty chunk that ends the stream the size is enough. */
  lemma CutArrives(s: Setup, l: Lane, noise: Noise, packets: bool, ws: seq<seq<Bytes>>, r: Reader)
    returns (n: nat, front: Bytes)
    requires CutOff(s, l, noise, packets, ws, r)
    requires !s.padded || NoneRefused(s, l, noise, packets, ws)
    ensures var body, cs := Sent(s, l, noise, packets, ws), Sent(s, l, noise, packets, ws + [[]]);
            && n <= |body| && |cs| == |body| + 1 && Streams.Pending(r.stream) == Wire(s, noise, cs[..n]) + front
            && front < ChunkBytes(s, noise, cs[n])
            && ReadAll(s, r).1 == Payloads(body)[..n]
            && ReadAll(s, r).2 ==
                 if n == |body| && |front| >= SizeBytes(s) then EOF
                 else if r.stream.end == EOF && front != [] && |front| != SizeBytes(s) then UnexpectedEOF
                 else r.stream.end
  {
    hide InTune, AllHeard, Sent, Send, ReadAll, Ready, SizeBytes, Wire, ChunkBytes, PayloadSize;
    SentHeard(s, l, noise, packets, ws);
    SendIsWire(s, l, noise, packets, ws + [[]]);
    var body, cs := Sent(s, l, noise, packets, ws), Sent(s, l, noise, packets, ws + [[]]);
    n, front := CutSplits(s, noise, cs, Streams.Pending(r.stream));
    assert cs[..n] == body[..n] && Payloads(body[..n]) == Payloads(body)[..n];
    assert n < |body| ==> cs[n] == body[n];
    CutFaced(s, r, l, noise, cs, n, front);
    CutReadAll(s, r, l, noise, cs[..n], cs[n], front);
  }

  lemma ChunkLonger(s: Setup, l: Lane, noise: Noise, cs: seq<Chunk>)
    requires Ready(s, l, noise) && InTune(s, l, noise, cs) && cs != [] && cs[0].payload != []
    ensures |ChunkBytes(s, noise, cs[0])| > SizeBytes(s)
  {
    hide EncodeSize, DecodeSize, SealChunk, PastSize, NextPadding;
    assert Ready(s, cs[0].at, noise);
    TakenSteps(s, cs[0].at, noise, cs[0].payload);
  }

  lemma WireLonger(s: Setup, noise: Noise, cs: seq<Chunk>, n: nat)
    requires cs != []
    ensures 0 < n <= |cs| ==> |Wire(s, noise, cs[..n])| >= |ChunkBytes(s, noise, cs[0])|
  {
    hide ChunkBytes;
  }

  /** So a cut can pass for the end of the stream: between the size and the body of its first chunk. */
  lemma CutLooksClean(s: Setup, l: Lane, noise: Noise, packets: bool, ws: seq<seq<Bytes>>, r: Reader)
    requires CutOff(s, l, noise, packets, ws, r) && r.stream.end == EOF
    requires !s.padded || NoneRefused(s, l, noise, packets, ws)
    requires |Streams.Pending(r.stream)| == SizeBytes(s) && Sent(s, l, noise, packets, ws) != []
    ensures ReadAll(s, r).1 == [] && ReadAll(s, r).2 == EOF
  {
    hide ReadAll, Send, Sent, SizeBytes, Ready, PayloadSize, ChunkBytes, InTune, AllHeard;
    var n, front := CutArrives(s, l, noise, packets, ws, r);
    SentHeard(s, l, noise, packets, ws);
    var cs := Sent(s, l, noise, packets, ws + [[]]);
    ChunkLonger(s, l, noise, cs);
    WireLonger(s, noise, cs, n);
  }
}
