/** common/crypto/auth.go: the reader and the writer of an authenticated stream. */
module AuthStreams {
  import opened Bytes
  import opened Buffers
  import opened MultiBuffers
  import opened Readers
  import opened Writers
  import opened ChunkStreams
  import Auth
  import Sealing
  import Streams

  class AuthenticationReader {
    const suite: Suite
    const reader: BufferedReader
    var size: uint16
    var padding: uint16
    var hasSize: bool
    var done: bool

    /** The reader buffers none of the suite's generator slices. */
    ghost predicate Clear()
      reads reader
    {
      Foreign(reader.buffer, suite)
    }

    ghost predicate Valid()
      reads this, reader, reader.reader, reader.buffer
    {
      && suite.Valid() && reader.Valid() && Clear() && Sealing.Sound(suite.setup)
      && (hasSize ==> padding <= Sealing.MaxPadding(suite.setup))
    }

    ghost function Repr(): set<object>
      reads reader
    {
      {this} + suite.Repr + reader.Repr()
    }

    ghost function Model(): (r: Auth.Reader)
      requires Valid()
      reads this, suite.Repr, reader, reader.reader, reader.buffer, Arrays(reader.buffer)
      ensures r.stream.end != NoError
    {
      Auth.Reader(size, padding, hasSize, done, suite.Lane(), reader.Model())
    }

    constructor (suite: Suite, reader: BufferedReader)
      requires suite.Valid() && reader.Valid() && Sealing.Sound(suite.setup)
      requires Foreign(reader.buffer, suite)
      ensures Valid() && this.suite == suite && this.reader == reader
      ensures Model() == Auth.Reader(0, 0, false, false, suite.Lane(), reader.Model())
    {
      this.suite, this.reader := suite, reader;
      size, padding, hasSize, done := 0, 0, false, false;
    }

    /** What the reader changes is not the suite's. */
    lemma LaneApart()
      ensures forall o :: o in suite.Repr ==> o != this && o !in reader.Repr()
    {
    }

    method ReadSize() returns (n: uint16, pad: uint16, err: Error)
      requires Valid()
      modifies Repr()
      ensures Valid() && reader.Renewed()
      ensures (Model(), n, pad, err) == Auth.ReadSize(suite.setup, old(Model()))
      ensures pad <= Sealing.MaxPadding(suite.setup)
    {
      hide Payloads, Flat, Streams.ReadFull, Sealing.DecodeSize, Sealing.SizeBytes, Streams.Pending, Streams.Delivered;
      if hasSize {
        hasSize := false;
        reader.Untouched();
        return size, padding, NoError;
      }
      LaneApart();
      Streams.ReadFullDelivers(reader.Model(), Sealing.SizeBytes(suite.setup));
      var head;
      head, err := reader.ReadFull(Sealing.SizeBytes(suite.setup));
      if err != NoError {
        return 0, 0, err;
      }
      label Read:
      Sealing.PaddingBound(suite.setup, suite.Lane());
      pad := suite.NextPadding();
      var size := suite.DecodeSize(head);
      reader.Untouched@Read();
      if size.None? {
        return 0, pad, Failure("invalid size");
      }
      n := size.value;
    }

    /** Read and open a chunk. The source panics where the result is "slice bounds out of range". */
    method ReadChunk(n: uint16, pad: uint16) returns (plain: Option<Bytes>, err: Error)
      requires Valid()
      modifies Repr()
      ensures Valid() && reader.Renewed()
      ensures (Model(), plain, err) == Auth.ReadChunk(suite.setup, old(Model()), n, pad)
    {
      hide Payloads, Flat, Streams.ReadFull, Sealing.Open, Streams.Pending, Streams.Delivered;
      LaneApart();
      Streams.ReadFullDelivers(reader.Model(), n);
      var block;
      block, err := reader.ReadFull(n);
      if err != NoError {
        return None, err;
      }
      var end := Auth.SealedEnd(n, pad);
      if end.None? {
        return None, Failure("slice bounds out of range");
      }
      label Read:
      plain := suite.Open(block[..end.value]);
      reader.Untouched@Read();
      if plain.None? {
        err := Failure("cipher: message authentication failed");
      }
    }

    /** The payload of the next chunk. */
    method NextPayload(soft: bool) returns (plain: Option<Bytes>, n: uint16, err: Error)
      requires Valid()
      modifies Repr()
      ensures Valid() && reader.Renewed()
      ensures (Model(), plain, err) == Auth.ReadInternal(suite.setup, old(Model()), soft)
      ensures err == NoError <==> plain.Some?
      ensures plain.Some? ==>
                |plain.value| <= n <= |plain.value| + suite.setup.aead.overhead + Sealing.MaxPadding(suite.setup)
    {
      hide Payloads, Flat, Auth.ReadSize, Auth.ReadBody, Sealing.SizeBytes, Sealing.MaxPadding;
      Auth.ReadSizeKeepsEnd(suite.setup, Model());
      var buffered := reader.BufferedBytes();
      reader.Untouched();
      if soft && buffered < Sealing.SizeBytes(suite.setup) {
        return None, 0, Auth.SOFT;
      }
      if done {
        return None, 0, EOF;
      }
      var pad;
      n, pad, err := ReadSize();
      if err != NoError {
        return None, 0, err;
      }
      plain, err := ReadBody(soft, n, pad);
    }

    /** The rest of readInternal, once the size is known. */
    method ReadBody(soft: bool, n: uint16, pad: uint16) returns (plain: Option<Bytes>, err: Error)
      requires Valid() && pad <= Sealing.MaxPadding(suite.setup)
      modifies Repr()
      ensures Valid() && reader.Renewed()
      ensures (Model(), plain, err) == Auth.ReadBody(suite.setup, old(Model()), soft, n, pad)
      ensures err == NoError <==> plain.Some?
      ensures plain.Some? ==>
                |plain.value| <= n <= |plain.value| + suite.setup.aead.overhead + Sealing.MaxPadding(suite.setup)
    {
      hide Payloads, Flat, Auth.ReadChunk, Sealing.MaxPadding, Suite.Lane;
      LaneApart();
      var buffered := reader.BufferedBytes();
      reader.Untouched();
      if n == (suite.setup.aead.overhead + pad) % 0x1_0000 {
        done := true;
        reader.Untouched();
        return None, EOF;
      }
      if soft && n > buffered {
        size, padding, hasSize := n, pad, true;
        reader.Untouched();
        return None, Auth.SOFT;
      }
      Auth.ReadChunkLength(suite.setup, Model(), n, pad);
      plain, err := ReadChunk(n, pad);
    }

    /** A list being filled: no part of it is the reader's or the suite's. */
    ghost predicate Filling(mb: MultiBuffer, ps: seq<Bytes>)
      reads reader, mb, Arrays(mb)
    {
      Owned(mb) && Apart(mb, reader.buffer) && Foreign(mb, suite) && Carries(suite.setup, mb, ps)
    }

    lemma FillingOutside(mb: MultiBuffer, ps: seq<Bytes>)
      requires Filling(mb, ps)
      ensures forall b :: b in mb ==> b !in Repr() && b.v !in Repr()
    {
    }

    /** readInternal: the payload of the next chunk goes to the end of mb. */
    method ReadInternal(soft: bool, mb: MultiBuffer, ghost ps: seq<Bytes>)
      returns (mb': MultiBuffer, ghost p: Option<Bytes>, err: Error)
      requires Valid() && Filling(mb, ps)
      modifies Repr(), Tail(mb)
      ensures Valid() && reader.Renewed()
      ensures (Model(), p, err) == Auth.ReadInternal(suite.setup, old(Model()), soft)
      ensures err == NoError <==> p.Some?
      ensures Filling(mb', if p.None? then ps else ps + [p.value])
      ensures forall b :: b in mb' ==> b in mb || (fresh(b) && fresh(b.v))
    {
      hide Payloads, Flat, Auth.ReadInternal, Carry, Sealing.MaxPadding, Sealing.Sound, Suite.Lane;
      var plain, n;
      FillingOutside(mb, ps);
      plain, n, err := NextPayload(soft);
      assert forall b :: b in mb ==> unchanged(b) && unchanged(b.v);
      Kept(mb);
      assert Apart(mb, reader.buffer);
      mb', p := mb, plain;
      if plain.Some? {
        mb' := Put(mb, n, plain.value, ps);
      }
    }

    /** The payload of a chunk of n bytes goes to the list. */
    method Put(mb: MultiBuffer, n: nat, plain: Bytes, ghost ps: seq<Bytes>) returns (r: MultiBuffer)
      requires Valid() && Filling(mb, ps)
      requires |plain| <= n <= |plain| + suite.setup.aead.overhead + Sealing.MaxPadding(suite.setup)
      modifies Tail(mb)
      ensures Valid() && Model() == old(Model()) && Filling(r, ps + [plain])
      ensures forall b :: b in r ==> b in mb || (fresh(b) && fresh(b.v))
    {
      hide Payloads, Flat, Carry, Sealing.MaxPadding;
      r := Append(suite.setup, mb, n, plain, ps);
      reader.Untouched();
    }

    /** The soft reads of ReadMultiBuffer. */
    method ReadMore(mb: MultiBuffer, ghost ps: seq<Bytes>)
      returns (mb': MultiBuffer, ghost qs: seq<Bytes>, err: Error)
      requires Valid() && Filling(mb, ps) && forall b :: b in mb ==> b !in Repr() && b.v !in Repr()
      modifies Repr(), mb, Arrays(mb)
      ensures Valid() && reader.Renewed() && Filling(mb', qs)
      ensures forall b :: b in mb' ==> b in mb || (fresh(b) && fresh(b.v))
      ensures Continue(ps, Auth.ReadMore(suite.setup, old(Model()), Auth.READ_SIZE - 1)) ==
                (Model(), if err == NoError then qs else [], err)
    {
      hide Payloads, Flat, Auth.ReadInternal, Carries;
      mb', qs := mb, ps;
      ghost var result := Continue(ps, Auth.ReadMore(suite.setup, Model(), Auth.READ_SIZE - 1));
      var i, more := 1, true;
      err := NoError;
      while i < Auth.READ_SIZE && more
        invariant 1 <= i <= Auth.READ_SIZE
        invariant Valid() && reader.Renewed() && Filling(mb', qs)
        invariant forall b :: b in mb' ==> b in mb || (fresh(b) && fresh(b.v))
        invariant more ==>
                    err == NoError && Continue(qs, Auth.ReadMore(suite.setup, Model(), Auth.READ_SIZE - i)) == result
        invariant !more ==> result == (Model(), if err == NoError then qs else [], err)
        decreases Auth.READ_SIZE - i
      {
        ghost var p;
        Auth.ReadInternalProgress(suite.setup, Model(), true);
        ghost var before := Model();
        MoreUnfold(suite.setup, before, Auth.READ_SIZE - i, qs);
        mb', p, err := ReadInternal(true, mb', qs);
        if err != NoError {
          more := false;
          if err == Auth.SOFT || err == EOF {
            err := NoError;
          }
        } else {
          qs := qs + [p.value];
        }
        i := i + 1;
      }
      assert qs + [] == qs;
    }

    method ReadMultiBuffer() returns (mb: MultiBuffer, err: Error)
      requires Valid()
      modifies Repr()
      ensures Valid() && reader.Renewed()
      ensures Owned(mb) && Apart(mb, reader.buffer) && forall b :: b in mb ==> fresh(b) && fresh(b.v)
      ensures var (r, ps, e) := Auth.ReadMultiBuffer(suite.setup, old(Model()));
              Model() == r && err == e && Carries(suite.setup, mb, ps)
    {
      hide Payloads, Flat, Auth.ReadInternal, Auth.ReadMore, Carries, Auth.Weight;
      CarriesNone(suite.setup);
      Auth.ReadInternalProgress(suite.setup, Model(), false);
      ghost var p, qs;
      mb, p, err := ReadInternal(false, [], []);
      CarriesNone(suite.setup);
      if err != NoError {
        return [], err;
      }
      assert [] + [p.value] == [p.value];
      FillingOutside(mb, [p.value]);
      mb, qs, err := ReadMore(mb, [p.value]);
      CarriesNone(suite.setup);
      if err != NoError {
        mb := [];
      }
    }
  }

  /** One turn of the loop. */
  lemma MoreUnfold(s: Sealing.Setup, r: Auth.Reader, k: nat, qs: seq<Bytes>)
    requires r.stream.end != NoError && k > 0
    ensures var (r1, p, err) := Auth.ReadInternal(s, r, true);
            && r1.stream.end != NoError && (err == NoError ==> p.Some?)
            && var all := Continue(qs, Auth.ReadMore(s, r, k));
            && (err == Auth.SOFT || err == EOF ==> all == (r1, qs, NoError))
            && (err == NoError ==> all == Continue(qs + [p.value], Auth.ReadMore(s, r1, k - 1)))
            && (err != Auth.SOFT && err != EOF && err != NoError ==> all == (r1, [], err))
  {
    hide Auth.ReadInternal, Auth.Weight;
    Auth.ReadInternalProgress(s, r, true);
    var (r1, p, err) := Auth.ReadInternal(s, r, true);
    assert qs + [] == qs;
    if err == NoError {
      var rest := Auth.ReadMore(s, r1, k - 1).1;
      assert qs + ([p.value] + rest) == (qs + [p.value]) + rest;
    }
  }

  /** The payloads so far, then those of the remaining soft reads; nothing if one of these fails. */
  ghost function Continue(ps: seq<Bytes>, rest: (Auth.Reader, seq<Bytes>, Error)): (Auth.Reader, seq<Bytes>, Error) {
    if rest.2 != NoError then (rest.0, [], rest.2) else (rest.0, ps + rest.1, NoError)
  }

  /** The last buffer of a list, which MergeBytes fills up. */
  ghost function Tail(mb: MultiBuffer): set<object> {
    if mb == [] then {} else {mb[|mb| - 1], mb[|mb| - 1].v}
  }

  /** Payloads whose chunks fit a standard buffer, whatever the padding. */
  predicate Short(s: Sealing.Setup, ps: seq<Bytes>) {
    forall i :: 0 <= i < |ps| ==> |ps[i]| + s.aead.overhead + Sealing.MaxPadding(s) <= SIZE
  }

  /** The list holds the payloads: their bytes in order, and short ones each in a buffer of its own. */
  ghost predicate Carries(s: Sealing.Setup, mb: MultiBuffer, ps: seq<Bytes>)
    requires forall i :: 0 <= i < |mb| ==> mb[i].Valid()
    reads mb, Arrays(mb)
  {
    Carry(s, Payloads(mb), ps)
  }

  ghost predicate Carry(s: Sealing.Setup, contents: seq<Bytes>, ps: seq<Bytes>) {
    Flat(contents) == Flat(ps) && (Short(s, ps) ==> contents == ps)
  }

  lemma CarriesNone(s: Sealing.Setup)
    ensures Carries(s, [], [])
  {
  }

  method Append(ghost s: Sealing.Setup, mb: MultiBuffer, n: nat, plain: Bytes, ghost ps: seq<Bytes>)
    returns (r: MultiBuffer)
    requires Owned(mb) && Carries(s, mb, ps)
    requires |plain| <= n <= |plain| + s.aead.overhead + Sealing.MaxPadding(s)
    modifies Tail(mb)
    ensures Owned(r) && Carries(s, r, ps + [plain])
    ensures forall b :: b in r ==> b in mb || (fresh(b) && fresh(b.v))
  {
    hide Payloads, Flat;
    FlatSnoc(ps, plain);
    if n <= SIZE {
      var b := NewWith(plain);
      Kept(mb);
      AppendedContent(mb, b, Payloads(mb));
      r := mb + [b];
      assert Short(s, ps + [plain]) ==> Short(s, ps) by { ShortFront(s, ps, plain); }
    } else {
      r := MergeBytes(mb, plain);
      assert !Short(s, ps + [plain]) by { assert (ps + [plain])[|ps|] == plain; }
    }
  }

  lemma ShortFront(s: Sealing.Setup, ps: seq<Bytes>, p: Bytes)
    ensures Short(s, ps + [p]) ==> Short(s, ps)
  {
    assert forall i :: 0 <= i < |ps| ==> (ps + [p])[i] == ps[i];
  }

  class AuthenticationWriter {
    const suite: Suite
    const writer: Sink
    const packets: bool
    const noise: Auth.Noise

    constructor (suite: Suite, writer: Sink, packets: bool, noise: Auth.Noise)
      ensures this.suite == suite && this.writer == writer && this.packets == packets && this.noise == noise
    {
      this.suite, this.writer, this.packets, this.noise := suite, writer, packets, noise;
    }

    ghost predicate Valid()
      reads suite.Repr
    {
      && suite.Valid() && Auth.Ready(suite.setup, suite.Lane(), noise)
      && Auth.PayloadSize(suite.setup) > 0  // writeStream would not get past its first round otherwise
    }

    /** seal. */
    method Seal(b: Bytes) returns (eb: Buffer?)
      requires Valid()
      modifies suite.Repr
      ensures Valid()
      ensures suite.Lane() == Auth.SealChunk(suite.setup, old(suite.Lane()), noise, b).1
      ensures eb != null <==> Auth.SealChunk(suite.setup, old(suite.Lane()), noise, b).0.Some?
      ensures eb != null ==>
                && eb.Valid() && fresh(eb) && fresh(eb.v)
                && Some(eb.Bytes()) == Auth.SealChunk(suite.setup, old(suite.Lane()), noise, b).0
    {
      Auth.SealChunkSteps(suite.setup, suite.Lane(), noise, b);
      ghost var z := noise(suite.draws, Sealing.NextPadding(suite.setup, suite.Lane()).0);
      assert |z| == Sealing.NextPadding(suite.setup, suite.Lane()).0;
      hide Sealing.Seal, Sealing.EncodeSize, Sealing.NextPadding, Auth.SealChunk, Auth.Ready, Auth.PayloadSize,
           Sealing.SizeBytes;
      var size := |b| + suite.setup.aead.overhead;
      var draw := suite.draws;
      var pad := suite.NextPadding();
      if Sealing.SizeBytes(suite.setup) + size + pad > SIZE {
        return null;
      }
      var head := suite.EncodeSize(size + pad);
      var cipher := suite.Seal(b);
      eb := Packed(head.value, cipher.value, noise(draw, pad));
    }

    /** The parts of a chunk in a new buffer. */
    method Packed(head: Bytes, cipher: Bytes, padding: Bytes) returns (eb: Buffer)
      requires |head| + |cipher| + |padding| <= SIZE
      ensures eb.Valid() && fresh(eb) && fresh(eb.v) && eb.Bytes() == head + cipher + padding
    {
      eb := new Buffer.New();
      assert eb.Bytes() == [];
      eb.Extend(head);
      assert eb.Bytes() == head;
      eb.Extend(cipher);
      assert head + cipher + [] == head + cipher;
      if |padding| > 0 {
        eb.Extend(padding);
      }
    }

    /** One turn of writeStream's loop: the next bytes of the list, sealed. */
    method SealNext(out: MultiBuffer, left: MultiBuffer, ghost done: seq<Bytes>, ghost data: Bytes)
      returns (out': MultiBuffer, left': MultiBuffer, ok: bool, more: bool)
      requires Valid() && Collected(out, done)
      requires Owned(left) && Content(left) == data && Foreign(left, suite) && Apart(out, left)
      modifies suite.Repr, left
      ensures Valid() && (more <==> |data| > Auth.PayloadSize(suite.setup))
      ensures |left'| <= |left| && left' == left[|left| - |left'|..] && Owned(left')
      ensures more ==> Content(left') == data[Auth.PayloadSize(suite.setup)..]
      ensures var n := Min(|data|, Auth.PayloadSize(suite.setup));
              var (b, l) := Auth.SealChunk(suite.setup, old(suite.Lane()), noise, data[..n]);
              && suite.Lane() == l && (ok <==> b.Some?) && Collected(out', if ok then done + [b.value] else done)
      ensures forall b :: b in out' ==> b in out || (fresh(b) && fresh(b.v))
    {
      hide Payloads, Flat, Auth.SealChunk, Auth.Ready;
      var piece, empty;
      left', piece, empty := ReadOff(left, Auth.PayloadSize(suite.setup));
      more := !empty;
      Kept(out);
      label Read:
      out', ok := SealOnto(out, piece, done);
      Kept@Read(left');
    }

    /** Seal one payload and put it after the buffers so far. */
    method SealOnto(out: MultiBuffer, b: Bytes, ghost done: seq<Bytes>) returns (out': MultiBuffer, ok: bool)
      requires Valid() && Collected(out, done)
      modifies suite.Repr
      ensures Valid()
      ensures var (c, l) := Auth.SealChunk(suite.setup, old(suite.Lane()), noise, b);
              && suite.Lane() == l && (ok <==> c.Some?) && Collected(out', if ok then done + [c.value] else done)
      ensures forall b :: b in out' ==> b in out || (fresh(b) && fresh(b.v))
    {
      hide Payloads, Flat, Auth.SealChunk, Auth.Ready;
      var eb := Seal(b);
      Kept(out);
      ok := eb != null;
      out' := out;
      if eb != null {
        AppendedContent(out, eb, done);
        out' := out + [eb];
      }
    }

    /** A list of sealed chunks in buffers that are nobody else's. */
    ghost predicate Collected(out: MultiBuffer, done: seq<Bytes>)
      reads out, Arrays(out)
    {
      Owned(out) && Payloads(out) == done && Foreign(out, suite)
    }

    /** The loop of writeStream. */
    method SealStream(mb: MultiBuffer) returns (out: MultiBuffer, ok: bool)
      requires Valid() && Owned(mb) && Foreign(mb, suite)
      modifies suite.Repr, mb
      ensures Valid() && (ok ==> Owned(out))
      ensures var (bs, l) := Auth.SealAll(suite.setup, old(suite.Lane()), noise,
                                          Auth.Pieces(old(Content(mb)), Auth.PayloadSize(suite.setup)));
              suite.Lane() == l && (ok <==> bs.Some?) && (ok ==> bs == Some(Payloads(out)))
    {
      hide Payloads, Flat, Auth.SealChunk, Auth.Pieces, Auth.Ready, Auth.SealAll;
      ghost var n, done, data := Auth.PayloadSize(suite.setup), [], Content(mb);
      ghost var result := Auth.SealAll(suite.setup, suite.Lane(), noise, Auth.Pieces(data, n));
      assert result.0.Some? ==> [] + result.0.value == result.0.value;
      out, ok := [], true;
      var left, more := mb, true;
      while more
        invariant Valid() && (ok ==> Collected(out, done)) && Owned(left) && Foreign(left, suite) && Apart(out, left)
        invariant |left| <= |mb| && left == mb[|mb| - |left|..]
        invariant forall b :: b in out ==> fresh(b) && fresh(b.v)
        invariant more ==> ok && Content(left) == data
        invariant more ==> After(done, Auth.SealAll(suite.setup, suite.Lane(), noise, Auth.Pieces(data, n))) == result
        invariant !more ==> result == (if ok then Some(done) else None, suite.Lane())
        decreases more, |data|
      {
        PiecesUnfold(suite.setup, suite.Lane(), noise, data, n, done);
        ghost var b := Auth.SealChunk(suite.setup, suite.Lane(), noise, data[..Min(|data|, n)]).0;
        out, left, ok, more := SealNext(out, left, done, data);
        if !ok {
          more := false;
        } else {
          done := done + [b.value];
          data := data[Min(|data|, n)..];
        }
      }
    }

    /** The loop of writePacket: empty packets and refused ones are passed over. */
    method SealPackets(mb: MultiBuffer) returns (out: MultiBuffer)
      requires Valid() && Owned(mb) && Foreign(mb, suite)
      modifies suite.Repr
      ensures Valid() && Owned(out)
      ensures (Payloads(out), suite.Lane()) ==
                Auth.SealPackets(suite.setup, old(suite.Lane()), noise, old(Payloads(mb)))
    {
      hide Payloads, Flat, Auth.SealChunk, Auth.Ready, Auth.SealPackets;
      ghost var ps, done := Payloads(mb), [];
      ghost var result := Auth.SealPackets(suite.setup, suite.Lane(), noise, ps);
      out := [];
      assert [] + result.0 == result.0 && ps[0..] == ps;
      for i := 0 to |mb|
        invariant Valid() && Collected(out, done) && Owned(mb) && Payloads(mb) == ps
        invariant forall b :: b in out ==> fresh(b) && fresh(b.v)
        invariant Onto(done, Auth.SealPackets(suite.setup, suite.Lane(), noise, ps[i..])) == result
      {
        PacketsUnfold(suite.setup, suite.Lane(), noise, ps, i, done);
        out, done := SealPacket(mb, i, out, done);
      }
      PacketsUnfold(suite.setup, suite.Lane(), noise, ps, |mb|, done);
    }

    method SealPacket(mb: MultiBuffer, i: nat, out: MultiBuffer, ghost done: seq<Bytes>)
      returns (out': MultiBuffer, ghost done': seq<Bytes>)
      requires Valid() && Owned(mb) && Foreign(mb, suite) && i < |mb| && Collected(out, done)
      modifies suite.Repr
      ensures Valid() && Owned(mb) && Payloads(mb) == old(Payloads(mb))
      ensures Collected(out', done') && forall b :: b in out' ==> b in out || (fresh(b) && fresh(b.v))
      ensures var p := old(Payloads(mb))[i];
              var (b, l1) := Auth.SealChunk(suite.setup, old(suite.Lane()), noise, p);
              && suite.Lane() == (if p == [] then old(suite.Lane()) else l1)
              && done' == if p == [] || b.None? then done else done + [b.value]
    {
      hide Payloads, Flat, Auth.SealChunk, Auth.Ready;
      out', done' := out, done;
      var packet := mb[i].BytesRange(0, mb[i].Len());
      assert packet == Payloads(mb)[i];
      if packet != [] {
        ghost var b := Auth.SealChunk(suite.setup, suite.Lane(), noise, packet).0;
        var ok;
        out', ok := SealOnto(out, packet, done);
        done' := if ok then done + [b.value] else done;
      }
      Kept(mb);
    }

    /** WriteMultiBuffer: at most one write on the sink, holding every chunk. */
    method WriteMultiBuffer(mb: MultiBuffer) returns (err: Error)
      requires Valid() && Owned(mb) && Foreign(mb, suite)
      modifies suite.Repr, writer, mb
      ensures Valid()
      ensures var (bs, l) := Auth.Write(suite.setup, old(suite.Lane()), noise, packets, old(Payloads(mb)));
              && suite.Lane() == l
              && (bs.None? ==> err != NoError && writer.writes == old(writer.writes))
              && (bs == Some([]) ==> err == NoError && writer.writes == old(writer.writes))
              && (bs.Some? && bs.value != [] ==>
                    && (err == NoError <==> !old(writer.Refuses()))
                    && writer.writes == if err == NoError then old(writer.writes) + [bs.value] else old(writer.writes))
    {
      hide Payloads, Flat, Auth.SealAll, Auth.SealPackets, Auth.Pieces;
      var empty := IsEmpty(mb);
      Kept(mb);
      var out, ok := [], true;
      if packets && !empty {
        out := SealPackets(mb);
        if |out| == 0 {
          return NoError;
        }
      } else {
        PiecesCount(suite.setup, suite.Lane(), noise, Content(mb), Auth.PayloadSize(suite.setup));
        if empty {
          PiecesUnfold(suite.setup, suite.Lane(), noise, [], Auth.PayloadSize(suite.setup), []);
          out, ok := SealOnto([], [], []);
        } else {
          out, ok := SealStream(mb);
        }
        if !ok {
          return Failure("size too large");  // with nothing to write, the source panics instead
        }
      }
      err := writer.WriteMultiBuffer(out);
    }
  }

  lemma PiecesCount(s: Sealing.Setup, l: Sealing.Lane, noise: Auth.Noise, data: Bytes, n: nat)
    requires n > 0
    ensures Auth.SealAll(s, l, noise, Auth.Pieces(data, n)).0 != Some([])
    ensures var r := Auth.SealAll(s, l, noise, Auth.Pieces(data, n)); After([], r) == r
  {
    var r := Auth.SealAll(s, l, noise, Auth.Pieces(data, n));
    assert r.0.Some? ==> [] + r.0.value == r.0.value;
  }

  /** One turn of the loop of writePacket. */
  lemma PacketsUnfold(s: Sealing.Setup, l: Sealing.Lane, noise: Auth.Noise, ps: seq<Bytes>, i: nat, done: seq<Bytes>)
    requires i <= |ps|
    ensures i == |ps| ==> Onto(done, Auth.SealPackets(s, l, noise, ps[i..])) == (done, l)
    ensures i < |ps| && ps[i] == [] ==>
              Auth.SealPackets(s, l, noise, ps[i..]) == Auth.SealPackets(s, l, noise, ps[i + 1..])
    ensures i < |ps| && ps[i] != [] ==>
              var (b, l1) := Auth.SealChunk(s, l, noise, ps[i]);
              Onto(done, Auth.SealPackets(s, l, noise, ps[i..])) ==
                Onto(if b.None? then done else done + [b.value], Auth.SealPackets(s, l1, noise, ps[i + 1..]))
  {
    hide Auth.SealChunk;
    if i < |ps| {
      assert ps[i..][0] == ps[i] && ps[i..][1..] == ps[i + 1..];
      var (b, l1) := Auth.SealChunk(s, l, noise, ps[i]);
      var rest := Auth.SealPackets(s, l1, noise, ps[i + 1..]).0;
      if b.Some? {
        assert done + ([b.value] + rest) == (done + [b.value]) + rest;
      }
    } else {
      assert done + [] == done;
    }
  }

  /** The chunks so far, then the rest; none when one is refused. */
  ghost function After(done: seq<Bytes>, rest: (Option<seq<Bytes>>, Sealing.Lane)): (Option<seq<Bytes>>, Sealing.Lane) {
    (if rest.0.None? then None else Some(done + rest.0.value), rest.1)
  }

  /** One turn of the loop of writeStream. */
  lemma PiecesUnfold(s: Sealing.Setup, l: Sealing.Lane, noise: Auth.Noise, data: Bytes, n: nat, done: seq<Bytes>)
    requires n > 0
    ensures var (b, l1) := Auth.SealChunk(s, l, noise, data[..Min(|data|, n)]);
            var all := After(done, Auth.SealAll(s, l, noise, Auth.Pieces(data, n)));
            && (b.None? ==> all == (None, l1))
            && (b.Some? && |data| <= n ==> all == (Some(done + [b.value]), l1))
            && (b.Some? && |data| > n ==>
                  all == After(done + [b.value], Auth.SealAll(s, l1, noise, Auth.Pieces(data[n..], n))))
  {
    hide Auth.SealChunk;
    var ps := Auth.Pieces(data, n);
    var (b, l1) := Auth.SealChunk(s, l, noise, data[..Min(|data|, n)]);
    if |data| <= n {
      assert data[..|data|] == data;
      assert ps[1..] == [];
      assert Auth.SealAll(s, l1, noise, ps[1..]) == (Some([]), l1);
      assert b.Some? ==> [b.value] + [] == [b.value];
    } else {
      assert ps[1..] == Auth.Pieces(data[n..], n);
      var rest := Auth.SealAll(s, l1, noise, ps[1..]).0;
      if b.Some? && rest.Some? {
        assert done + ([b.value] + rest.value) == (done + [b.value]) + rest.value;
      }
    }
  }
}

