/** common/crypto/chunk.go on contents: the chunked form of a stream, and reading it back. */
module Chunks {
  import opened Bytes
  import opened MultiBuffers
  import opened Sealing
  import Streams

  /** The longest chunk a ChunkStreamWriter makes. */
  const SLICE: nat := 8192

  /** numChunk is a 32-bit counter. */
  const COUNT_WRAP: nat := 0x1_0000_0000

  // ---- Writing ----

  /** SplitSize panics on a longer buffer, because its copy goes to a standard one. */
  predicate Splittable(ps: seq<Bytes>) {
    forall i :: 0 <= i < |ps| ==> |ps[i]| <= SLICE
  }

  ghost predicate Ready(s: Setup, l: Lane) {
    Sound(s) && KeysFit(s, l)
  }

  lemma LeftSplittable(ps: seq<Bytes>)
    requires Splittable(ps)
    ensures Splittable(Left(ps, SLICE)) && |Flat(Taken(ps, SLICE))| <= SLICE
    ensures Flat(ps) != [] ==> Flat(Taken(ps, SLICE)) != [] && |Flat(Left(ps, SLICE))| < |Flat(ps)|
    ensures Flat(Taken(ps, SLICE)) + Flat(Left(ps, SLICE)) == Flat(ps)
  {
    SplitSizeConserves(ps, SLICE);
    if Flat(ps) != [] {
      SplitSizeNonEmpty(ps, SLICE);
    }
  }

  /** The chunks one WriteMultiBuffer cuts its list into. */
  function ChunksOf(ps: seq<Bytes>): seq<Bytes>
    requires Splittable(ps)
    decreases |Flat(ps)|
  {
    LeftSplittable(ps);
    var rest := Left(ps, SLICE);
    [Flat(Taken(ps, SLICE))] + if Flat(rest) == [] then [] else ChunksOf(rest)
  }

  /** One WriteMultiBuffer: for each chunk a buffer with its encoded size, then the chunk's buffers. */
  ghost function Write(s: Setup, l: Lane, ps: seq<Bytes>): (seq<Bytes>, Lane)
    requires Splittable(ps) && Ready(s, l)
    decreases |Flat(ps)|
  {
    LeftSplittable(ps);
    var slice, rest := Taken(ps, SLICE), Left(ps, SLICE);
    SizeRoundTrip(s, l, |Flat(slice)|);
    var (size, l1) := EncodeSize(s, l, |Flat(slice)|);
    if Flat(rest) == [] then ([size.value] + slice, l1)
    else
      var (more, l2) := Write(s, l1, rest);
      ([size.value] + slice + more, l2)
  }

  /** One round of the writer's loop. */
  lemma WriteUnfold(s: Setup, l: Lane, ps: seq<Bytes>)
    requires Splittable(ps) && Ready(s, l)
    ensures |Flat(Taken(ps, SLICE))| <= SLICE && Splittable(Left(ps, SLICE))
    ensures var (size, l1) := EncodeSize(s, l, |Flat(Taken(ps, SLICE))|);
            && size.Some? && |size.value| == SizeBytes(s) && Ready(s, l1)
            && (Flat(Left(ps, SLICE)) == [] ==> Write(s, l, ps) == ([size.value] + Taken(ps, SLICE), l1))
            && (Flat(Left(ps, SLICE)) != [] ==>
                  |Flat(Left(ps, SLICE))| < |Flat(ps)| &&
                  var (more, l2) := Write(s, l1, Left(ps, SLICE));
                  Write(s, l, ps) == ([size.value] + Taken(ps, SLICE) + more, l2))
  {
    LeftSplittable(ps);
    SizeRoundTrip(s, l, |Flat(Taken(ps, SLICE))|);
  }

  predicate Fits(cs: seq<Bytes>) {
    forall i :: 0 <= i < |cs| ==> |cs[i]| < 0x1_0000
  }

  /** The bytes of a list of chunks, and where they leave the encoder. */
  ghost function Wire(s: Setup, l: Lane, cs: seq<Bytes>): (Bytes, Lane)
    requires Fits(cs) && Ready(s, l)
    ensures Ready(s, Wire(s, l, cs).1)
    decreases |cs|
  {
    if cs == [] then ([], l)
    else
      SizeRoundTrip(s, l, |cs[0]|);
      var (size, l1) := EncodeSize(s, l, |cs[0]|);
      var (more, l2) := Wire(s, l1, cs[1..]);
      (size.value + cs[0] + more, l2)
  }

  /** A write's chunks carry exactly its bytes; none is empty unless the whole write is; every size
      fits in 16 bits with room to spare. */
  lemma {:induction false} ChunksCarryAll(ps: seq<Bytes>)
    requires Splittable(ps)
    ensures Flat(ChunksOf(ps)) == Flat(ps)
    ensures forall i :: 0 <= i < |ChunksOf(ps)| ==> |ChunksOf(ps)[i]| <= SLICE
    ensures if Flat(ps) == [] then ChunksOf(ps) == [[]]
            else forall i :: 0 <= i < |ChunksOf(ps)| ==> ChunksOf(ps)[i] != []
    decreases |Flat(ps)|
  {
    LeftSplittable(ps);
    var c, rest := Flat(Taken(ps, SLICE)), Left(ps, SLICE);
    if Flat(rest) == [] {
      FlatOne(c);
    } else {
      ChunksCarryAll(rest);
      assert ChunksOf(ps)[1..] == ChunksOf(rest);
    }
  }

  /** What a write hands to the link is the wire form of its chunks. */
  lemma {:induction false} WriteIsWire(s: Setup, l: Lane, ps: seq<Bytes>)
    requires Splittable(ps) && Ready(s, l)
    ensures Fits(ChunksOf(ps))
    ensures (Flat(Write(s, l, ps).0), Write(s, l, ps).1) == Wire(s, l, ChunksOf(ps))
    decreases |Flat(ps)|
  {
    ChunksCarryAll(ps);
    LeftSplittable(ps);
    var slice, rest := Taken(ps, SLICE), Left(ps, SLICE);
    SizeRoundTrip(s, l, |Flat(slice)|);
    var (size, l1) := EncodeSize(s, l, |Flat(slice)|);
    FlatAppend([size.value], slice);
    FlatOne(size.value);
    if Flat(rest) == [] {
      assert ChunksOf(ps)[1..] == [];
      assert size.value + Flat(slice) + [] == size.value + Flat(slice);
    } else {
      WriteIsWire(s, l1, rest);
      var more := Write(s, l1, rest).0;
      FlatAppend([size.value] + slice, more);
      assert ChunksOf(ps)[1..] == ChunksOf(rest);
    }
  }

  lemma {:induction false} WireAppend(s: Setup, l: Lane, a: seq<Bytes>, b: seq<Bytes>)
    requires Fits(a) && Fits(b) && Ready(s, l)
    ensures Fits(a + b)
    ensures var (x, l1) := Wire(s, l, a);
            var (y, l2) := Wire(s, l1, b);
            Wire(s, l, a + b) == (x + y, l2)
    decreases |a|
  {
    if a == [] {
      assert a + b == b;
      assert [] + Wire(s, l, b).0 == Wire(s, l, b).0;
    } else {
      SizeRoundTrip(s, l, |a[0]|);
      var (size, l1) := EncodeSize(s, l, |a[0]|);
      assert (a + b)[1..] == a[1..] + b && (a + b)[0] == a[0];
      WireAppend(s, l1, a[1..], b);
      var (x, l2) := Wire(s, l1, a[1..]);
      Streams.Glue(size.value + a[0], x, Wire(s, l2, b).0);
    }
  }

  // ---- Reading ----

  /** ChunkStreamReader: leftOverSize, numChunk, and the position in what it reads. */
  datatype Reader = Reader(left: nat, count: nat, lane: Lane, stream: Streams.State)

  function Deliver(r: Reader): (Reader, Streams.Outcome) {
    Streams.ReadAtMostBound(r.stream, r.left);
    var (st, out) := Streams.ReadAtMost(r.stream, r.left);
    if Flat(out.mb) != []
    then (r.(stream := st, left := r.left - |Flat(out.mb)|), Streams.Outcome(out.mb, NoError))
    else (r.(stream := st), Streams.Outcome([], out.err))
  }

  /** Between chunks: count one more, and read the size of the next. */
  ghost function StartChunk(s: Setup, max: nat, r: Reader): (Reader, Error)
    requires r.stream.end != NoError
  {
    var r1 := r.(count := (r.count + 1) % COUNT_WRAP);
    if max > 0 && r1.count > max then (r1, EOF)
    else
      var (r2, size, err) := ReadSize(s, r1);
      if err != NoError then (r2, err)
      else if size == 0 then (r2, EOF)
      else (r2.(left := size), NoError)
  }

  /** readSize: the size field of the next chunk. */
  ghost function ReadSize(s: Setup, r: Reader): (Reader, uint16, Error)
    requires r.stream.end != NoError
  {
    var (st, head, err) := Streams.ReadFull(r.stream, SizeBytes(s));
    Streams.ReadFullDelivers(r.stream, SizeBytes(s));
    if err != NoError then (r.(stream := st), 0, err)
    else
      var (size, l) := DecodeSize(s, r.lane, head);
      var r1 := r.(stream := st, lane := l);
      if size.None? then (r1, 0, Failure("invalid size")) else (r1, size.value, NoError)
  }

  /** ReadMultiBuffer of a reader limited to `max` chunks (0: no limit). */
  ghost function ReadMultiBuffer(s: Setup, max: nat, r: Reader): (Reader, Streams.Outcome)
    requires r.stream.end != NoError
  {
    if r.left != 0 then Deliver(r)
    else
      var (r2, err) := StartChunk(s, max, r);
      if err != NoError then (r2, Streams.Outcome([], err)) else Deliver(r2)
  }

  /** Deliver in one line: without content nothing is taken off the chunk. */
  lemma DeliverUnfold(r: Reader)
    ensures var (st, out) := Streams.ReadAtMost(r.stream, r.left);
            var n := |Flat(out.mb)|;
            && n <= r.left
            && Deliver(r) == (Reader(r.left - n, r.count, r.lane, st),
                              Streams.Outcome(if n > 0 then out.mb else [], if n > 0 then NoError else out.err))
  {
    Streams.ReadAtMostBound(r.stream, r.left);
  }

  lemma DeliverFacts(r: Reader)
    requires r.left > 0 && r.stream.end != NoError
    ensures var (r', out) := Deliver(r);
            && r' == r.(left := r'.left, stream := r'.stream)
            && Flat(out.mb) + Streams.Pending(r'.stream) == Streams.Pending(r.stream)
            && |Flat(out.mb)| + r'.left == r.left
            && r'.stream.end == r.stream.end
            && (out.err == NoError ==> Streams.Work(r'.stream) < Streams.Work(r.stream))
            && (out.err != NoError ==>
                  r'.stream == r.stream && out.mb == [] && out.err == r.stream.end && Streams.Pending(r.stream) == [])
  {
    Streams.ReadAtMostConserves(r.stream, r.left);
    Streams.ReadAtMostBound(r.stream, r.left);
    Streams.StepProgress(r.stream, Streams.OpReadAtMost(r.left));
  }

  /** The reader is `cur` short of the end of a chunk, and the chunks cs and then `tail` follow. */
  ghost predicate Facing(s: Setup, r: Reader, cur: Bytes, cs: seq<Bytes>, tail: Bytes) {
    && Fits(cs) && Ready(s, r.lane) && |cur| == r.left && r.stream.end != NoError
    && Streams.Pending(r.stream) == cur + Wire(s, r.lane, cs).0 + tail
  }

  /** The limit stops the reader here: it is between chunks and has counted `max` of them. */
  predicate Spent(max: nat, r: Reader) {
    max > 0 && r.left == 0 && (r.count + 1) % COUNT_WRAP > max
  }

  /** One call at a chunk stream: it never fails while chunks are left, it delivers the next bytes of
      the current chunk, and an empty chunk or a spent limit reads as EOF. */
  lemma ReadStep(s: Setup, max: nat, r: Reader, cur: Bytes, cs: seq<Bytes>, tail: Bytes)
    requires Facing(s, r, cur, cs, tail) && (cur != [] || cs != [] || Spent(max, r))
    ensures var (r', out) := ReadMultiBuffer(s, max, r);
            if Spent(max, r) then out == Streams.Outcome([], EOF) && Facing(s, r', [], cs, tail)
            else if cur == [] && cs[0] == [] then
              out == Streams.Outcome([], EOF) && Facing(s, r', [], cs[1..], tail)
            else
              var whole := if cur == [] then cs[0] else cur;
              && out.err == NoError && Flat(out.mb) <= whole
              && Facing(s, r', whole[|Flat(out.mb)|..], if cur == [] then cs[1..] else cs, tail)
              && r'.count == (if cur == [] then (r.count + 1) % COUNT_WRAP else r.count)
  {
    if cur != [] {
      DeliverStep(s, r, cur, cs, tail);
    } else if !Spent(max, r) {
      StartStep(s, max, r, cs, tail);
      if cs[0] != [] {
        DeliverStep(s, StartChunk(s, max, r).0, cs[0], cs[1..], tail);
      }
    }
  }

  /** Reading the size of the next chunk, for any segmentation. */
  lemma ReadSizeStep(s: Setup, r: Reader, cs: seq<Bytes>, tail: Bytes)
    requires Facing(s, r, [], cs, tail) && cs != []
    ensures var (r1, size, err) := ReadSize(s, r);
            && err == NoError && size == |cs[0]|
            && r1 == r.(stream := r1.stream, lane := EncodeSize(s, r.lane, |cs[0]|).1)
            && Facing(s, r1.(left := size), cs[0], cs[1..], tail)
  {
    hide Streams.Pending, Streams.ReadFull, SizeBytes;
    SizeRoundTrip(s, r.lane, |cs[0]|);
    var (size, l) := EncodeSize(s, r.lane, |cs[0]|);
    var more := Wire(s, l, cs[1..]).0;
    assert Streams.Pending(r.stream) == size.value + (cs[0] + more + tail);
    Streams.ReadFullDelivers(r.stream, SizeBytes(s));
    var (st, head, err) := Streams.ReadFull(r.stream, SizeBytes(s));
    CutFront(head, Streams.Pending(st), size.value, cs[0] + more + tail);
    assert size.value[|head|..] + (cs[0] + more + tail) == cs[0] + more + tail;
  }

  lemma StartStep(s: Setup, max: nat, r: Reader, cs: seq<Bytes>, tail: Bytes)
    requires Facing(s, r, [], cs, tail) && cs != [] && !Spent(max, r)
    ensures var (r2, err) := StartChunk(s, max, r);
            && err == (if cs[0] == [] then EOF else NoError)
            && Facing(s, r2, cs[0], cs[1..], tail) && r2.count == (r.count + 1) % COUNT_WRAP
            && r2.lane == EncodeSize(s, r.lane, |cs[0]|).1
  {
    hide ReadSize, Streams.Pending, Wire, EncodeSize;
    ReadSizeStep(s, r.(count := (r.count + 1) % COUNT_WRAP), cs, tail);
  }

  lemma DeliverStep(s: Setup, r: Reader, cur: Bytes, cs: seq<Bytes>, tail: Bytes)
    requires Facing(s, r, cur, cs, tail) && cur != []
    ensures var (r', out) := Deliver(r);
            && out.err == NoError && Flat(out.mb) <= cur && r'.count == r.count
            && Facing(s, r', cur[|Flat(out.mb)|..], cs, tail)
  {
    DeliverFacts(r);
    var (r', out) := Deliver(r);
    var d := Flat(out.mb);
    var wire := Wire(s, r.lane, cs).0;
    Streams.Glue(cur, wire, tail);
    CutFront(d, Streams.Pending(r'.stream), cur, wire + tail);
    Streams.Glue(cur[|d|..], wire, tail);
  }

  lemma StartProgress(s: Setup, max: nat, r: Reader)
    requires r.stream.end != NoError && r.left == 0
    ensures var (r2, err) := StartChunk(s, max, r);
            && r2.stream.end == r.stream.end && Streams.Work(r2.stream) <= Streams.Work(r.stream)
            && (err == NoError ==> r2.left > 0)
  {
    hide Streams.ReadFull, Streams.Pending, Streams.Work, DecodeSize;
    Streams.ReadFullDelivers(r.stream, SizeBytes(s));
  }

  lemma ReadProgress(s: Setup, max: nat, r: Reader)
    requires r.stream.end != NoError
    ensures var (r', out) := ReadMultiBuffer(s, max, r);
            && r'.stream.end == r.stream.end && Streams.Work(r'.stream) <= Streams.Work(r.stream)
            && (out.err == NoError ==> Streams.Work(r'.stream) < Streams.Work(r.stream))
  {
    if r.left != 0 {
      DeliverFacts(r);
    } else {
      StartProgress(s, max, r);
      var (r2, err) := StartChunk(s, max, r);
      if err == NoError {
        DeliverFacts(r2);
      }
    }
  }

  /** Call the reader until it reports an error: the reading half of buf.Copy. */
  ghost function ReadAll(s: Setup, max: nat, r: Reader): (Reader, seq<Bytes>, Error)
    requires r.stream.end != NoError
    decreases Streams.Work(r.stream)
  {
    ReadProgress(s, max, r);
    var (r1, out) := ReadMultiBuffer(s, max, r);
    if out.err != NoError then (r1, [], out.err)
    else
      var (r2, more, err) := ReadAll(s, max, r1);
      (r2, out.mb + more, err)
  }

  /** A limit that a reader can reach: at the largest value the counter wraps past it instead. */
  predicate Limited(max: nat) {
    0 < max < COUNT_WRAP - 1
  }

  /** After `n` of the chunks cs the reader reports EOF: its limit is reached, or an empty chunk comes. */
  ghost predicate StopsAfter(max: nat, r: Reader, cs: seq<Bytes>, n: nat) {
    && n <= |cs| && (forall i :: 0 <= i < n ==> cs[i] != [])
    && (Limited(max) ==> r.count + n <= max)
    && ((Limited(max) && r.count + n == max) || (n < |cs| && cs[n] == []))
  }

  /** What the reader has not touched then: an empty chunk that stopped it is consumed. */
  ghost function After(max: nat, r: Reader, cs: seq<Bytes>, n: nat): seq<Bytes>
    requires StopsAfter(max, r, cs, n)
  {
    if Limited(max) && r.count + n == max then cs[n..] else cs[n + 1..]
  }

  lemma ReadAllUnfold(s: Setup, max: nat, r: Reader)
    requires r.stream.end != NoError
    ensures var (r1, out) := ReadMultiBuffer(s, max, r);
            && r1.stream.end == r.stream.end
            && (out.err != NoError ==> ReadAll(s, max, r) == (r1, [], out.err))
            && (out.err == NoError ==>
                  Streams.Work(r1.stream) < Streams.Work(r.stream) &&
                  var (r2, more, err) := ReadAll(s, max, r1);
                  ReadAll(s, max, r) == (r2, out.mb + more, err))
  {
    ReadProgress(s, max, r);
  }

  /** Once the first chunk is begun, one less is due. */
  lemma OneLess(max: nat, r: Reader, r1: Reader, cs: seq<Bytes>, n: nat)
    requires StopsAfter(max, r, cs, n) && n > 0 && max < COUNT_WRAP && r1.count == (r.count + 1) % COUNT_WRAP
    ensures cs != [] && cs[0] != [] && StopsAfter(max, r1, cs[1..], n - 1)
    ensures After(max, r1, cs[1..], n - 1) == After(max, r, cs, n)
  {
    FirstChunks(cs, n);
  }

  /** Reading until EOF delivers exactly the rest of the current chunk and the chunks due, whatever the
      segmentation, and leaves the stream exactly after them. */
  lemma {:induction false} ReadAllExact(s: Setup, max: nat, r: Reader, cur: Bytes, cs: seq<Bytes>, tail: Bytes, n: nat)
    requires Facing(s, r, cur, cs, tail) && StopsAfter(max, r, cs, n) && max < COUNT_WRAP
    ensures var (r', bs, err) := ReadAll(s, max, r);
            && err == EOF && Flat(bs) == cur + Flat(cs[..n])
            && Facing(s, r', [], After(max, r, cs, n), tail)
    decreases Streams.Work(r.stream)
  {
    hide ReadMultiBuffer, ReadAll, Facing;
    assert r.stream.end != NoError && |cur| == r.left by { FacingBasics(s, r, cur, cs, tail); }
    ReadAllUnfold(s, max, r);
    ReadStep(s, max, r, cur, cs, tail);
    var (r1, out) := ReadMultiBuffer(s, max, r);
    if cur != [] {
      ReadAllExact(s, max, r1, cur[|Flat(out.mb)|..], cs, tail, n);
      DeliveredFirst(out.mb, ReadAll(s, max, r1).1, cur, Flat(cs[..n]));
    } else if n > 0 {
      OneLess(max, r, r1, cs, n);
      ReadAllExact(s, max, r1, cs[0][|Flat(out.mb)|..], cs[1..], tail, n - 1);
      DeliveredFirst(out.mb, ReadAll(s, max, r1).1, cs[0], Flat(cs[1..][..n - 1]));
      FirstChunks(cs, n);
    } else {
      assert cs[..0] == [] && cs[0..] == cs;
    }
  }

  lemma FacingBasics(s: Setup, r: Reader, cur: Bytes, cs: seq<Bytes>, tail: Bytes)
    requires Facing(s, r, cur, cs, tail)
    ensures r.stream.end != NoError && |cur| == r.left
  {
  }

  lemma DeliveredFirst(mb: seq<Bytes>, more: seq<Bytes>, whole: Bytes, rest: Bytes)
    requires Flat(mb) <= whole && Flat(more) == whole[|Flat(mb)|..] + rest
    ensures Flat(mb + more) == whole + rest
  {
    FlatAppend(mb, more);
    assert Flat(mb) + whole[|Flat(mb)|..] == whole;
  }

  lemma FirstChunks(cs: seq<Bytes>, n: nat)
    requires 0 < n <= |cs|
    ensures Flat(cs[..n]) == cs[0] + Flat(cs[1..][..n - 1])
    ensures cs[1..][n - 1..] == cs[n..]
    ensures n < |cs| ==> cs[1..][n..] == cs[n + 1..]
  {
    assert cs[..n][0] == cs[0] && cs[..n][1..] == cs[1..][..n - 1];
  }

  // ---- The round trip ----

  ghost predicate Writes(ws: seq<seq<Bytes>>) {
    forall i :: 0 <= i < |ws| ==> Splittable(ws[i])
  }

  /** The bytes of a sequence of writes. */
  ghost function WriteAll(s: Setup, l: Lane, ws: seq<seq<Bytes>>): Bytes
    requires Writes(ws) && Ready(s, l)
    decreases |ws|
  {
    if ws == [] then []
    else
      WriteIsWire(s, l, ws[0]);
      var (mb, l1) := Write(s, l, ws[0]);
      Flat(mb) + WriteAll(s, l1, ws[1..])
  }

  ghost function AllChunks(ws: seq<seq<Bytes>>): seq<Bytes>
    requires Writes(ws)
  {
    if ws == [] then [] else ChunksOf(ws[0]) + AllChunks(ws[1..])
  }

  lemma {:induction false} AllChunksCarryAll(ws: seq<seq<Bytes>>)
    requires Writes(ws)
    ensures Fits(AllChunks(ws)) && Flat(AllChunks(ws)) == FlatAll(ws)
    ensures (forall i :: 0 <= i < |ws| ==> Flat(ws[i]) != []) ==>
              forall i :: 0 <= i < |AllChunks(ws)| ==> AllChunks(ws)[i] != []
  {
    if ws != [] {
      ChunksCarryAll(ws[0]);
      AllChunksCarryAll(ws[1..]);
      FlatAppend(ChunksOf(ws[0]), AllChunks(ws[1..]));
    }
  }

  lemma {:induction false} WriteAllIsWire(s: Setup, l: Lane, ws: seq<seq<Bytes>>)
    requires Writes(ws) && Ready(s, l)
    ensures Fits(AllChunks(ws)) && WriteAll(s, l, ws) == Wire(s, l, AllChunks(ws)).0
    decreases |ws|
  {
    AllChunksCarryAll(ws);
    if ws != [] {
      WriteIsWire(s, l, ws[0]);
      var l1 := Write(s, l, ws[0]).1;
      WriteAllIsWire(s, l1, ws[1..]);
      WireAppend(s, l, ChunksOf(ws[0]), AllChunks(ws[1..]));
    }
  }

  /** Non-empty writes followed by an empty one, read back through any segmentation, give exactly the
      written bytes and then EOF, with whatever follows left untouched. */
  lemma {:induction false} ChunkStreamRoundTrip(s: Setup, l: Lane, ws: seq<seq<Bytes>>, st: Streams.State, tail: Bytes)
    requires Ready(s, l) && Writes(ws) && forall i :: 0 <= i < |ws| ==> Flat(ws[i]) != []
    requires st.end != NoError && Streams.Pending(st) == WriteAll(s, l, ws + [[]]) + tail
    ensures var (r, bs, err) := ReadAll(s, 0, Reader(0, 0, l, st));
            err == EOF && Flat(bs) == FlatAll(ws) && Streams.Pending(r.stream) == tail
  {
    var cs := AllChunks(ws);
    AllChunksCarryAll(ws);
    WriteAllIsWire(s, l, ws + [[]]);
    EmptyWriteLast(ws);
    var r := Reader(0, 0, l, st);
    assert Facing(s, r, [], cs + [[]], tail);
    ReadAllExact(s, 0, r, [], cs + [[]], tail, |cs|);
    assert (cs + [[]])[..|cs|] == cs && (cs + [[]])[|cs| + 1..] == [];
    assert [] + tail == tail;
  }

  lemma {:induction false} EmptyWriteLast(ws: seq<seq<Bytes>>)
    requires Writes(ws)
    ensures Writes(ws + [[]]) && AllChunks(ws + [[]]) == AllChunks(ws) + [[]]
  {
    if ws == [] {
      ChunksCarryAll([]);
      assert (ws + [[]])[0] == [] && (ws + [[]])[1..] == [];
    } else {
      assert (ws + [[]])[1..] == ws[1..] + [[]];
      EmptyWriteLast(ws[1..]);
    }
  }

  /** A reader limited to `max` chunks stops exactly after that many, at the start of the next. */
  lemma LimitedReaderStops(s: Setup, max: nat, l: Lane, cs: seq<Bytes>, st: Streams.State, tail: Bytes)
    requires Limited(max) && max <= |cs| && forall i :: 0 <= i < max ==> cs[i] != []
    requires Facing(s, Reader(0, 0, l, st), [], cs, tail)
    ensures var (r, bs, err) := ReadAll(s, max, Reader(0, 0, l, st));
            && err == EOF && Flat(bs) == Flat(cs[..max])
            && Facing(s, r, [], cs[max..], tail)
  {
    ReadAllExact(s, max, Reader(0, 0, l, st), [], cs, tail, max);
  }

  /** On a stream with more chunks than that, every limit there is in 32 bits takes effect but the largest;
      with that one the reader reads on to the end. */
  lemma LimitTakesEffectIff(s: Setup, max: nat, l: Lane, cs: seq<Bytes>, st: Streams.State, tail: Bytes)
    requires 0 < max < COUNT_WRAP && max < |cs| && forall i :: 0 <= i < |cs| ==> cs[i] != []
    requires Facing(s, Reader(0, 0, l, st), [], cs + [[]], tail)
    ensures var (r, bs, err) := ReadAll(s, max, Reader(0, 0, l, st));
            && err == EOF && (Flat(bs) == Flat(cs[..max]) <==> max != COUNT_WRAP - 1)
            && (max == COUNT_WRAP - 1 ==> Flat(bs) == Flat(cs))
  {
    hide Facing, ReadAll;
    var all := cs + [[]];
    if Limited(max) {
      LimitedReaderStops(s, max, l, all, st, tail);
      assert all[..max] == cs[..max];
    } else {
      ReadAllExact(s, max, Reader(0, 0, l, st), [], all, tail, |cs|);
      assert all[..|cs|] == cs;
      FlatSplit(cs, max);
      FlatEmpty(cs[max..]);
      assert cs[max..][0] != [];
    }
  }

  // ---- A stream that is cut off ----

  /** On any input, a call ends cleanly in these cases only: the limit is reached; nothing is left of the
      source in a chunk, before one, or after its size; or the size is zero. */
  lemma CleanEndIff(s: Setup, max: nat, r: Reader)
    requires r.stream.end != NoError
    ensures var (r1, size, err) := ReadSize(s, r);
            ReadMultiBuffer(s, max, r).1.err == EOF <==>
              if r.left > 0 then Flat(r.stream.buffer) == [] && r.stream.segs == [] && r.stream.end == EOF
              else
                || Spent(max, r)
                || (Streams.Pending(r.stream) == [] && r.stream.end == EOF)
                || (err == NoError && size == 0)
                || (err == NoError && Flat(r1.stream.buffer) == [] && r1.stream.segs == [] && r.stream.end == EOF)
  {
    hide Streams.ReadFull, Streams.Pending, DecodeSize;
    var n := SizeBytes(s);
    assert n > 0;
    Streams.ReadFullDelivers(r.stream, n);
    var (r1, size, err) := ReadSize(s, r);
    if r.left > 0 {
      DeliverEnds(r);
    } else if err == NoError && size > 0 {
      DeliverEnds(r1.(left := size, count := (r.count + 1) % COUNT_WRAP));
    }
  }

  lemma DeliverEnds(r: Reader)
    requires r.left > 0 && r.stream.end != NoError
    ensures Deliver(r).1.err == if Flat(r.stream.buffer) == [] && r.stream.segs == [] then r.stream.end else NoError
  {
    DeliverUnfold(r);
    DeliverFacts(r);
  }

  /** The bytes of one chunk that is written from l. */
  ghost function ChunkBytes(s: Setup, l: Lane, c: Bytes): Bytes
    requires Ready(s, l) && |c| < 0x1_0000
  {
    SizeRoundTrip(s, l, |c|);
    EncodeSize(s, l, |c|).0.value + c
  }

  /** The rest of the current chunk is not all there: what there is is delivered, and then the error is
      the transport's own. */
  lemma {:induction false} CutInside(s: Setup, max: nat, r: Reader)
    requires r.stream.end != NoError && r.left > |Streams.Pending(r.stream)|
    ensures var (r', bs, err) := ReadAll(s, max, r);
            Flat(bs) == Streams.Pending(r.stream) && err == r.stream.end
    decreases Streams.Work(r.stream)
  {
    hide Deliver, Streams.Pending, Streams.Work;
    ReadAllUnfold(s, max, r);
    DeliverFacts(r);
    var (r1, out) := Deliver(r);
    assert ReadMultiBuffer(s, max, r) == (r1, out);
    if out.err == NoError {
      CutInside(s, max, r1);
      FlatAppend(out.mb, ReadAll(s, max, r1).1);
    } else {
      assert Flat([]) == [];
    }
  }

  /** Before the first chunk that is not all there. */
  lemma CutBetween(s: Setup, max: nat, r: Reader, c: Bytes, front: Bytes)
    requires Ready(s, r.lane) && r.stream.end != NoError && r.left == 0 && !Spent(max, r) && |c| < 0x1_0000
    requires Streams.Pending(r.stream) == front < ChunkBytes(s, r.lane, c)
    ensures var (r', bs, err) := ReadAll(s, max, r);
            var n := SizeBytes(s);
            && Flat(bs) == (if |front| < n then [] else front[n..])
            && err == if r.stream.end == EOF && 0 < |front| < n then UnexpectedEOF else r.stream.end
  {
    hide EncodeSize, DecodeSize, SizeBytes, Streams.ReadFull, Streams.Pending, Deliver, ReadAll;
    SizeRoundTrip(s, r.lane, |c|);
    var n, head := SizeBytes(s), EncodeSize(s, r.lane, |c|).0.value;
    Streams.ReadFullDelivers(r.stream, n);
    var (st, b, err) := Streams.ReadFull(r.stream, n);
    ReadAllUnfold(s, max, r);
    var (r2, err2) := StartChunk(s, max, r);
    if |front| < n {
      assert Flat([]) == [];
    } else {
      assert b == front[..n] == (head + c)[..n] == head;
      assert Streams.Pending(st) == (b + Streams.Pending(st))[n..];
      assert r2.left == |c| && err2 == NoError;
      ReadAllSame(s, max, r, r2);
      CutInside(s, max, r2);
    }
  }

  /** Reading on in a chunk just begun. */
  lemma ReadAllSame(s: Setup, max: nat, r: Reader, r2: Reader)
    requires r.stream.end != NoError && r.left == 0 && StartChunk(s, max, r) == (r2, NoError)
    requires r2.left > 0 && r2.stream.end == r.stream.end
    ensures ReadAll(s, max, r).1 == ReadAll(s, max, r2).1 && ReadAll(s, max, r).2 == ReadAll(s, max, r2).2
  {
    hide Deliver, StartChunk;
    ReadAllUnfold(s, max, r);
    ReadAllUnfold(s, max, r2);
  }

  /** One call leaves the reader where the encoder was after the chunk it is in. */
  lemma CutLane(s: Setup, max: nat, r: Reader, cur: Bytes, cs: seq<Bytes>, tail: Bytes)
    requires Facing(s, r, cur, cs, tail) && (cur != [] || (cs != [] && cs[0] != [])) && !Spent(max, r)
    ensures var r1 := ReadMultiBuffer(s, max, r).0;
            r1.lane == if cur != [] then r.lane else EncodeSize(s, r.lane, |cs[0]|).1
  {
    hide Wire, EncodeSize, DecodeSize, Streams.ReadFull, Streams.Pending, SizeBytes, Deliver;
    if cur != [] {
      DeliverFacts(r);
    } else {
      StartStep(s, max, r, cs, tail);
      DeliverFacts(StartChunk(s, max, r).0);
    }
  }

  lemma DeliveredPart(mb: seq<Bytes>, more: seq<Bytes>, whole: Bytes, rest: Bytes, part: Bytes)
    requires Flat(mb) <= whole && Flat(more) == whole[|Flat(mb)|..] + rest + part
    ensures Flat(mb + more) == whole + rest + part
  {
    assert whole[|Flat(mb)|..] + rest + part == whole[|Flat(mb)|..] + (rest + part);
    DeliveredFirst(mb, more, whole, rest + part);
  }

  /** The chunks that can be read whole are delivered first. */
  lemma {:induction false} CutReadAll(s: Setup, max: nat, r: Reader, cur: Bytes, cs: seq<Bytes>, c: Bytes, front: Bytes)
    requires Facing(s, r, cur, cs, front) && |c| < 0x1_0000 && front < ChunkBytes(s, Wire(s, r.lane, cs).1, c)
    requires (forall i :: 0 <= i < |cs| ==> cs[i] != []) && (Limited(max) ==> r.count + |cs| < max) && max < COUNT_WRAP
    ensures var (r', bs, err) := ReadAll(s, max, r);
            var n := SizeBytes(s);
            && Flat(bs) == cur + Flat(cs) + (if |front| < n then [] else front[n..])
            && err == if r.stream.end == EOF && 0 < |front| < n then UnexpectedEOF else r.stream.end
    decreases Streams.Work(r.stream)
  {
    hide ReadMultiBuffer, ReadAll, SizeBytes, EncodeSize, ChunkBytes, Streams.Pending;
    ReadAllUnfold(s, max, r);
    var part := if |front| < SizeBytes(s) then [] else front[SizeBytes(s)..];
    if cur == [] && cs == [] {
      assert [] + [] + front == front;
      CutBetween(s, max, r, c, front);
      assert Flat(cs) == [] && [] + [] + part == part;
    } else {
      ReadStep(s, max, r, cur, cs, front);
      var (r1, out) := ReadMultiBuffer(s, max, r);
      var whole, later := if cur == [] then cs[0] else cur, if cur == [] then cs[1..] else cs;
      CutLane(s, max, r, cur, cs, front);
      CutReadAll(s, max, r1, whole[|Flat(out.mb)|..], later, c, front);
      DeliveredPart(out.mb, ReadAll(s, max, r1).1, whole, Flat(later), part);
      assert whole + Flat(later) == cur + Flat(cs);
    }
  }

  /** A proper front part of some chunks is whole chunks, and then a proper front part of one. */
  lemma {:induction false} CutSplits(s: Setup, l: Lane, cs: seq<Bytes>, w: Bytes) returns (n: nat, front: Bytes)
    requires Fits(cs) && Ready(s, l) && w < Wire(s, l, cs).0
    ensures n < |cs| && w == Wire(s, l, cs[..n]).0 + front && front < ChunkBytes(s, Wire(s, l, cs[..n]).1, cs[n])
    decreases |cs|
  {
    hide EncodeSize, DecodeSize;
    SizeRoundTrip(s, l, |cs[0]|);
    var l1 := EncodeSize(s, l, |cs[0]|).1;
    var b, more := ChunkBytes(s, l, cs[0]), Wire(s, l1, cs[1..]).0;
    assert Wire(s, l, cs).0 == b + more;
    if |w| < |b| {
      n, front := 0, w;
      assert w == (b + more)[..|w|] == b[..|w|];
      assert Wire(s, l, cs[..0]).0 + front == front;
    } else {
      var w1 := more[..|w| - |b|];
      assert w == (b + more)[..|w|] == b + w1;
      n, front := CutSplits(s, l1, cs[1..], w1);
      assert cs[..n + 1][0] == cs[0] && cs[..n + 1][1..] == cs[1..][..n];
      assert b + (Wire(s, l1, cs[1..][..n]).0 + front) == Wire(s, l, cs[..n + 1]).0 + front;
      n := n + 1;
    }
  }

  /** A stream that is cut off anywhere before its last byte: everything of it that is there is delivered,
      n whole chunks and what there is of the next. Only a cut inside a size field shows; inside a chunk,
      or between two, the end is what the transport said it was, and a clean one passes for the end of
      the stream. */
  lemma ChunkStreamCut(s: Setup, l: Lane, ws: seq<seq<Bytes>>, st: Streams.State) returns (n: nat, front: Bytes)
    requires Ready(s, l) && Writes(ws) && forall i :: 0 <= i < |ws| ==> Flat(ws[i]) != []
    requires st.end != NoError && Streams.Pending(st) < WriteAll(s, l, ws + [[]])
    ensures var cs := AllChunks(ws);
            && n <= |cs| && Fits(cs) && Streams.Pending(st) == Wire(s, l, cs[..n]).0 + front
            && front < ChunkBytes(s, Wire(s, l, cs[..n]).1, if n < |cs| then cs[n] else [])
            && var (r, bs, err) := ReadAll(s, 0, Reader(0, 0, l, st));
               && Flat(bs) == Flat(cs[..n]) + (if |front| < SizeBytes(s) then [] else front[SizeBytes(s)..])
               && err == if st.end == EOF && 0 < |front| < SizeBytes(s) then UnexpectedEOF else st.end
  {
    hide ReadAll, SizeBytes, EncodeSize, DecodeSize, ChunkBytes, Streams.Pending, ChunksOf, Wire;
    var cs := AllChunks(ws);
    AllChunksCarryAll(ws);
    WriteAllIsWire(s, l, ws + [[]]);
    EmptyWriteLast(ws);
    var all := cs + [[]];
    n, front := CutSplits(s, l, all, Streams.Pending(st));
    assert all[..n] == cs[..n];
    var r := Reader(0, 0, l, st);
    assert Streams.Pending(st) == [] + Wire(s, l, cs[..n]).0 + front;
    CutReadAll(s, 0, r, [], cs[..n], all[n], front);
    assert [] + Flat(cs[..n]) == Flat(cs[..n]);
  }
}
