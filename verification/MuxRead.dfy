/** common/mux/reader.go and common/buf/copy.go on values: reading the data of one frame. */
module MuxReads {
  import opened Bytes
  import opened Buffers
  import opened Links
  import Chunks
  import Nonces
  import Sealing
  import Streams

  /** PlainChunkSizeParser: sizes in the clear, and nothing sealed. */
  const PLAIN: Sealing.Setup :=
    Sealing.Setup(Sealing.Aead(0, 0, (n, p) => p, (n, c) => Some(c)), Nonces.Static, Sealing.Plain,
                  false, 0, w => 0, i => 0)

  const NO_LANE: Sealing.Lane := Sealing.Lane([], [], 0)

  /** A reader of one frame's data: NewStreamReader, which stops after one chunk, or NewPacketReader. */
  datatype Reader = StreamReader(chunks: Chunks.Reader) | PacketReader(eof: bool, stream: Streams.State)

  function StreamOf(r: Reader): Streams.State {
    match r
    case StreamReader(c) => c.stream
    case PacketReader(_, st) => st
  }

  function NewReader(packets: bool, st: Streams.State): Reader {
    if packets then PacketReader(false, st) else StreamReader(Chunks.Reader(0, 0, NO_LANE, st))
  }

  /** PacketReader.ReadMultiBuffer: one packet of at most a buffer, then EOF. */
  function ReadPacket(eof: bool, st: Streams.State): (Reader, Streams.Outcome)
    requires st.end != NoError
  {
    if eof then (PacketReader(true, st), Streams.Outcome([], EOF))
    else
      var (st1, head, err1) := Streams.ReadFull(st, 2);
      Streams.ReadFullDelivers(st, 2);
      if err1 != NoError then (PacketReader(false, st1), Streams.Outcome([], err1))
      else if FromBe16(head) > SIZE then
        (PacketReader(false, st1), Streams.Outcome([], Failure("packet size too large")))
      else
        var (st2, out) := ReadSized(st1, FromBe16(head));
        (PacketReader(out.err == NoError, st2), out)
  }

  /** Exactly n bytes, in a buffer of their own. */
  function ReadSized(st: Streams.State, n: nat): (Streams.State, Streams.Outcome)
    requires st.end != NoError
  {
    var (st1, data, err) := Streams.ReadFull(st, n);
    (st1, if err != NoError then Streams.Outcome([], err) else Streams.Outcome([data], NoError))
  }

  ghost function ReadOnce(r: Reader): (Reader, Streams.Outcome)
    requires StreamOf(r).end != NoError
  {
    match r
    case StreamReader(c) =>
      var (c', out) := Chunks.ReadMultiBuffer(PLAIN, 1, c);
      (StreamReader(c'), out)
    case PacketReader(eof, st) => ReadPacket(eof, st)
  }

  lemma ReadOnceProgress(r: Reader)
    requires StreamOf(r).end != NoError
    ensures var (r', out) := ReadOnce(r);
            && StreamOf(r').end == StreamOf(r).end && r'.StreamReader? == r.StreamReader?
            && Streams.Work(StreamOf(r')) <= Streams.Work(StreamOf(r))
            && (out.err == NoError ==> Streams.Work(StreamOf(r')) < Streams.Work(StreamOf(r)))
  {
    hide Streams.Work, Streams.Pending, Streams.ReadFull;
    match r
    case StreamReader(c) => Chunks.ReadProgress(PLAIN, 1, c);
    case PacketReader(eof, st) =>
      Streams.ReadFullDelivers(st, 2);
      Streams.ReadFullWork(st, 2);
      var (st1, head, err1) := Streams.ReadFull(st, 2);
      if err1 == NoError {
        Streams.ReadFullDelivers(st1, FromBe16(head));
      }
  }

  // ---- buf.Copy ----

  /** How a copy ends: at EOF, or with a failure to read or to write. */
  datatype Ended = Done | ReadError(err: Error) | WriteError(err: Error)

  /** The error Copy returns. */
  function Result(e: Ended): Error {
    if e.Done? then NoError else e.err
  }

  /** Copy to a link, or to buf.Discard. A list without content is not written. */
  ghost function Copy(r: Reader, out: Option<Link>): (Reader, Option<Link>, Ended)
    requires StreamOf(r).end != NoError
    decreases Streams.Work(StreamOf(r))
  {
    ReadOnceProgress(r);
    var (r1, o) := ReadOnce(r);
    var (out1, werr) := Pass(out, o.mb);
    if werr != NoError then (r1, out1, WriteError(werr))
    else if o.err == EOF then (r1, out1, Done)
    else if o.err != NoError then (r1, out1, ReadError(o.err))
    else Copy(r1, out1)
  }

  function Pass(out: Option<Link>, mb: seq<Bytes>): (Option<Link>, Error) {
    if out.None? || Flat(mb) == [] then (out, NoError)
    else
      var (l, err) := Send(out.value, mb);
      (Some(l), err)
  }

  lemma CopyUnfold(r: Reader, out: Option<Link>)
    requires StreamOf(r).end != NoError
    ensures var (r1, o) := ReadOnce(r);
            var (out1, werr) := Pass(out, o.mb);
            && StreamOf(r1).end == StreamOf(r).end
            && (werr != NoError ==> Copy(r, out) == (r1, out1, WriteError(werr)))
            && (werr == NoError && o.err == EOF ==> Copy(r, out) == (r1, out1, Done))
            && (werr == NoError && o.err != EOF && o.err != NoError ==> Copy(r, out) == (r1, out1, ReadError(o.err)))
            && (werr == NoError && o.err == NoError ==>
                  Streams.Work(StreamOf(r1)) < Streams.Work(StreamOf(r)) && Copy(r, out) == Copy(r1, out1))
  {
    ReadOnceProgress(r);
  }

  /** What a copy leaves unchanged, whatever it reads. */
  lemma {:induction false} CopyKeeps(r: Reader, out: Option<Link>)
    requires StreamOf(r).end != NoError
    ensures var (r', out', e) := Copy(r, out);
            && StreamOf(r').end == StreamOf(r).end && r'.StreamReader? == r.StreamReader?
            && out'.Some? == out.Some?
            && (out.Some? ==> out'.value.closed == out.value.closed && out'.value.refuses == out.value.refuses)
            && (out.None? ==> !e.WriteError?)
            && Streams.Work(StreamOf(r')) <= Streams.Work(StreamOf(r))
    decreases Streams.Work(StreamOf(r))
  {
    hide ReadOnce;
    ReadOnceProgress(r);
    CopyUnfold(r, out);
    var (r1, o) := ReadOnce(r);
    var (out1, werr) := Pass(out, o.mb);
    if werr == NoError && o.err == NoError {
      CopyKeeps(r1, out1);
    }
  }

  // ---- The data of a frame ----

  /** The length field and the data of a frame. */
  function Field(c: Bytes): Bytes
    requires |c| < 0x1_0000
  {
    Be16(|c|) + c
  }

  /** The chunk c lies ahead of a fresh stream reader. */
  lemma FreshFaces(st: Streams.State, c: Bytes, rest: Bytes)
    requires st.end != NoError && |c| < 0x1_0000 && Streams.Pending(st) == Field(c) + rest
    ensures Chunks.Facing(PLAIN, Chunks.Reader(0, 0, NO_LANE, st), [], [c], rest)
  {
    var l := NO_LANE;
    assert Chunks.Wire(PLAIN, l, [c]).0 == Be16(|c|) + c by {
      assert Chunks.Wire(PLAIN, l, [c][1..]).0 == [];
      assert Be16(|c|) + c + [] == Be16(|c|) + c;
    }
    assert [] + (Be16(|c|) + c) + rest == Field(c) + rest;
  }

  /** The reader has begun its only chunk, and `cur` is left of it. */
  ghost predicate Within(r: Reader, cur: Bytes, rest: Bytes) {
    r.StreamReader? && r.chunks.count == 1 && Chunks.Facing(PLAIN, r.chunks, cur, [], rest)
  }

  /** How far a copy of `c` got: all of it went to the link, or a proper front part did, and the reader
      stands where a second copy will find the end of the chunk. */
  ghost predicate Copied(out: Option<Link>, out': Option<Link>, c: Bytes, done: bool) {
    && out'.Some? == out.Some?
    && (out.Some? ==>
          && out'.value.closed == out.value.closed && out'.value.refuses == out.value.refuses
          && exists d: Bytes {:trigger out.value.Sent() + d} ::
               d <= c && (done ==> d == c) && (!done ==> |d| < |c|) && out'.value.Sent() == out.value.Sent() + d)
  }

  lemma CopiedMore(out: Option<Link>, out1: Option<Link>, out': Option<Link>, a: Bytes, b: Bytes, done: bool)
    requires Copied(out, out1, a, true) && Copied(out1, out', b, done)
    ensures Copied(out, out', a + b, done)
  {
    if out.Some? {
      var d: Bytes :| d <= b && (done ==> d == b) && (!done ==> |d| < |b|) &&
                      out'.value.Sent() == out1.value.Sent() + d;
      assert out1.value.Sent() == out.value.Sent() + a;
      Streams.Glue(out.value.Sent(), a, d);
      assert a + d <= a + b;
      assert out'.value.Sent() == out.value.Sent() + (a + d);
    }
  }

  lemma PassCopied(out: Option<Link>, mb: seq<Bytes>)
    ensures var (out1, err) := Pass(out, mb);
            && Copied(out, out1, Flat(mb), err == NoError) && (out.None? ==> err == NoError)
  {
    if out.Some? && Flat(mb) != [] {
      FlatAllSnoc(out.value.writes, mb);
      var (l, err) := Send(out.value, mb);
      assert out.value.Sent() + [] == out.value.Sent();
      assert l.Sent() == out.value.Sent() + if err == NoError then Flat(mb) else [];
    } else if out.Some? {
      assert out.value.Sent() + [] == out.value.Sent();
    }
  }

  /** Copying what is left of a chunk: all of it goes to the link, or the link refuses a piece and the
      reader is still within the chunk. */
  lemma {:induction false} CopyRest(r: Reader, out: Option<Link>, cur: Bytes, rest: Bytes)
    requires Within(r, cur, rest)
    ensures StreamOf(r).end != NoError
    ensures var (r', out', e) := Copy(r, out);
            && Copied(out, out', cur, e.Done?) && !e.ReadError? && (out.None? ==> e.Done?)
            && (e.Done? ==> Streams.Pending(StreamOf(r')) == rest)
            && (!e.Done? ==> exists left: Bytes :: Within(r', left, rest))
    decreases Streams.Work(StreamOf(r))
  {
    hide Copied, Copy, Streams.Work, Streams.Pending, Pass, Chunks.Facing;
    Chunks.FacingBasics(PLAIN, r.chunks, cur, [], rest);
    CopyUnfold(r, out);
    Chunks.ReadStep(PLAIN, 1, r.chunks, cur, [], rest);
    var (r1, o) := ReadOnce(r);
    var (out1, werr) := Pass(out, o.mb);
    PassCopied(out, o.mb);
    if cur != [] {
      var d := Flat(o.mb);
      assert Within(r1, cur[|d|..], rest);
      assert d + cur[|d|..] == cur;
      if werr == NoError {
        CopyRest(r1, out1, cur[|d|..], rest);
        var (r', out', e) := Copy(r1, out1);
        CopiedMore(out, out1, out', d, cur[|d|..], e.Done?);
      } else {
        CopiedPart(out, out1, d, cur);
      }
    } else {
      FacedPending(r1.chunks, rest);
    }
  }

  lemma FacedPending(r: Chunks.Reader, rest: Bytes)
    requires Chunks.Facing(PLAIN, r, [], [], rest)
    ensures Streams.Pending(r.stream) == rest
  {
    assert [] + [] + rest == rest;
  }

  lemma CopiedPart(out: Option<Link>, out': Option<Link>, d: Bytes, c: Bytes)
    requires Copied(out, out', d, false) && d <= c
    ensures Copied(out, out', c, false)
  {
  }

  /** Copying the data of a frame as a stream, from a fresh reader. */
  lemma CopyStream(st: Streams.State, out: Option<Link>, c: Bytes, rest: Bytes)
    requires st.end != NoError && |c| < 0x1_0000 && Streams.Pending(st) == Field(c) + rest
    ensures var (r', out', e) := Copy(NewReader(false, st), out);
            && Copied(out, out', c, e.Done?) && !e.ReadError? && (out.None? ==> e.Done?)
            && (e.Done? ==> Streams.Pending(StreamOf(r')) == rest)
            && (!e.Done? ==> exists left: Bytes :: Within(r', left, rest))
  {
    hide Copied, Copy, Streams.Work, Streams.Pending, Pass, Chunks.Facing;
    var r := NewReader(false, st);
    FreshFaces(st, c, rest);
    CopyUnfold(r, out);
    Chunks.ReadStep(PLAIN, 1, r.chunks, [], [c], rest);
    var (r1, o) := ReadOnce(r);
    var (out1, werr) := Pass(out, o.mb);
    PassCopied(out, o.mb);
    assert [c][1..] == [];
    if c != [] {
      var d := Flat(o.mb);
      assert Within(r1, c[|d|..], rest);
      assert d + c[|d|..] == c;
      if werr == NoError {
        CopyRest(r1, out1, c[|d|..], rest);
        CopiedMore(out, out1, Copy(r1, out1).1, d, c[|d|..], Copy(r1, out1).2.Done?);
      } else {
        CopiedPart(out, out1, d, c);
      }
    } else {
      FacedPending(r1.chunks, rest);
    }
  }

  /** The drain after a refused write finds the end of the chunk. */
  lemma DrainRest(r: Reader, left: Bytes, rest: Bytes)
    requires Within(r, left, rest)
    ensures StreamOf(r).end != NoError
    ensures var (r', out', e) := Copy(r, None);
            e == Done && Streams.Pending(StreamOf(r')) == rest
  {
    CopyRest(r, None, left, rest);
  }

  /** Copying the data of a frame as a packet: it goes to the link whole or not at all, and nothing is
      left of it either way. Longer than a buffer, it is not read: only its length is gone. */
  lemma CopyPacket(st: Streams.State, out: Option<Link>, c: Bytes, rest: Bytes)
    requires st.end != NoError && |c| < 0x1_0000 && Streams.Pending(st) == Field(c) + rest
    ensures var (r', out', e) := Copy(NewReader(true, st), out);
            && (|c| <= SIZE ==>
                  && r'.PacketReader? && r'.eof && Streams.Pending(r'.stream) == rest
                  && (out', Result(e)) == Pass(out, [c]) && !e.ReadError?)
            && (|c| > SIZE ==>
                  && r' == PacketReader(false, StreamOf(r')) && Streams.Pending(r'.stream) == c + rest
                  && out' == out && e.ReadError?)
  {
    hide Streams.Work, Streams.Pending, Streams.ReadFull;
    Be16RoundTrip(|c|);
    FlatOne(c);
    Streams.ReadFullDelivers(st, 2);
    var (st1, head, err1) := Streams.ReadFull(st, 2);
    assert Field(c) + rest == Be16(|c|) + (c + rest);
    CutFront(head, Streams.Pending(st1), Be16(|c|), c + rest);
    assert Be16(|c|)[|head|..] + (c + rest) == c + rest;
    var r := NewReader(true, st);
    CopyUnfold(r, out);
    if |c| <= SIZE {
      Streams.ReadFullDelivers(st1, |c|);
      var (st2, data, err2) := Streams.ReadFull(st1, |c|);
      CutFront(data, Streams.Pending(st2), c, rest);
      assert c[|data|..] + rest == rest;
      var (out1, werr) := Pass(out, [c]);
      CopyUnfold(PacketReader(true, st2), out1);
    }
  }
}
