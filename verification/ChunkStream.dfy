/** common/crypto/chunk.go: the reader and the writer of a chunk stream. */
module ChunkStreams {
  import opened Bytes
  import opened Buffers
  import opened MultiBuffers
  import opened Nonces
  import opened Readers
  import opened Writers
  import Chunks
  import Sealing
  import Streams

  /** What one end of a stream draws from: authenticator, size parser and padding generator, with the
      generators they share. */
  class Suite {
    const setup: Sealing.Setup
    const nonces: BytesGenerator
    const sizeNonces: BytesGenerator
    var draws: nat

    ghost predicate Valid() {
      && nonces.kind == setup.gen && nonces.c != sizeNonces.c
      && (setup.size.SealedOwn? ==> sizeNonces.kind == setup.size.gen)
    }

    ghost const Repr: set<object> := {this, nonces.c, sizeNonces.c}

    ghost function Lane(): Sealing.Lane
      reads Repr
    {
      Sealing.Lane(nonces.c[..], sizeNonces.c[..], draws)
    }

    constructor (setup: Sealing.Setup, nonces: BytesGenerator, sizeNonces: BytesGenerator, draws: nat)
      requires nonces.kind == setup.gen && nonces.c != sizeNonces.c
      requires setup.size.SealedOwn? ==> sizeNonces.kind == setup.size.gen
      ensures Valid() && Lane() == Sealing.Lane(nonces.c[..], sizeNonces.c[..], draws)
      ensures this.setup == setup && this.nonces == nonces && this.sizeNonces == sizeNonces
    {
      this.setup, this.nonces, this.sizeNonces, this.draws := setup, nonces, sizeNonces, draws;
    }

    method Seal(plain: Bytes) returns (cipher: Option<Bytes>)
      requires Valid()
      modifies Repr
      ensures (cipher, Lane()) == Sealing.Seal(setup, old(Lane()), plain)
    {
      var iv := nonces.Generate();
      cipher := Sealing.SealWith(setup.aead, iv, plain);
    }

    method Open(cipher: Bytes) returns (plain: Option<Bytes>)
      requires Valid()
      modifies Repr
      ensures (plain, Lane()) == Sealing.Open(setup, old(Lane()), cipher)
    {
      var iv := nonces.Generate();
      plain := Sealing.OpenWith(setup.aead, iv, cipher);
    }

    method NextPadding() returns (n: uint16)
      requires Valid()
      modifies Repr
      ensures (n, Lane()) == Sealing.NextPadding(setup, old(Lane()))
    {
      if setup.padded {
        n := setup.padOf(setup.words(draws));
        draws := draws + 1;
      } else {
        n := 0;
      }
    }

    method EncodeSize(size: uint16) returns (b: Option<Bytes>)
      requires Valid()
      modifies Repr
      ensures (b, Lane()) == Sealing.EncodeSize(setup, old(Lane()), size)
    {
      match setup.size
      case Plain => b := Some(Be16(size));
      case Masked =>
        b := Some(Be16(Sealing.Xor(setup.words(draws), size)));
        draws := draws + 1;
      case SealedShared => b := Seal(Be16((size - setup.aead.overhead) % 0x1_0000));
      case SealedOwn(a, gen) =>
        var iv := sizeNonces.Generate();
        b := Sealing.SealWith(a, iv, Be16((size - a.overhead) % 0x1_0000));
    }

    method DecodeSize(b: Bytes) returns (size: Option<uint16>)
      requires Valid() && |b| == Sealing.SizeBytes(setup)
      modifies Repr
      ensures (size, Lane()) == Sealing.DecodeSize(setup, old(Lane()), b)
    {
      match setup.size
      case Plain => size := Some(FromBe16(b));
      case Masked =>
        size := Some(Sealing.Xor(setup.words(draws), FromBe16(b)));
        draws := draws + 1;
      case SealedShared =>
        var p := Open(b);
        size := Sealing.Unwrap(p, setup.aead.overhead);
      case SealedOwn(a, gen) =>
        var iv := sizeNonces.Generate();
        size := Sealing.Unwrap(Sealing.OpenWith(a, iv, b), a.overhead);
    }
  }

  class ChunkStreamReader {
    const suite: Suite
    const reader: BufferedReader
    const max: nat
    var left: nat
    var count: nat

    /** The reader buffers none of the suite's generator slices. */
    ghost predicate Clear()
      reads reader
    {
      forall b :: b in reader.buffer ==> b.v !in suite.Repr
    }

    ghost predicate Valid()
      reads this, reader, reader.reader, reader.buffer
    {
      suite.Valid() && reader.Valid() && Clear()
    }

    ghost function Repr(): set<object>
      reads reader
    {
      {this} + suite.Repr + reader.Repr()
    }

    ghost function Model(): (r: Chunks.Reader)
      requires Valid()
      reads this, suite.Repr, reader, reader.reader, reader.buffer, Arrays(reader.buffer)
      ensures r.stream.end != NoError
    {
      Chunks.Reader(left, count, suite.Lane(), reader.Model())
    }

    constructor (suite: Suite, reader: BufferedReader, max: nat)
      requires suite.Valid() && reader.Valid()
      requires forall b :: b in reader.buffer ==> b.v !in suite.Repr
      ensures Valid() && this.suite == suite && this.reader == reader && this.max == max
      ensures Model() == Chunks.Reader(0, 0, suite.Lane(), reader.Model())
    {
      this.suite, this.reader, this.max := suite, reader, max;
      left, count := 0, 0;
    }

    method ReadMultiBuffer() returns (mb: MultiBuffer, err: Error)
      requires Valid()
      modifies Repr()
      ensures Valid() && reader.Renewed()
      ensures Owned(mb) && Apart(mb, reader.buffer) && reader.OwnOrNew(mb)
      ensures Model() == Chunks.ReadMultiBuffer(suite.setup, max, old(Model())).0
      ensures Streams.Outcome(Payloads(mb), err) == Chunks.ReadMultiBuffer(suite.setup, max, old(Model())).1
    {
      if left == 0 {
        err := StartChunk();
        if err != NoError {
          return [], err;
        }
      }
      mb, err := Deliver();
    }

    /** What the reader changes is not the suite's. */
    lemma LaneApart()
      ensures forall o :: o in suite.Repr ==> o != this && o !in reader.Repr()
    {
    }

    method StartChunk() returns (err: Error)
      requires Valid() && left == 0
      modifies Repr()
      ensures Valid() && reader.Renewed()
      ensures (Model(), err) == Chunks.StartChunk(suite.setup, max, old(Model()))
    {
      hide Payloads, Chunks.ReadSize;
      count := (count + 1) % Chunks.COUNT_WRAP;
      reader.Untouched();
      if max > 0 && count > max {
        return EOF;
      }
      var size;
      size, err := ReadSize();
      if err != NoError {
        return;
      }
      if size == 0 {
        return EOF;
      }
      label Sized:
      left := size;
      reader.Untouched@Sized();
    }

    /** readSize. */
    method ReadSize() returns (size: uint16, err: Error)
      requires Valid()
      modifies Repr()
      ensures Valid() && reader.Renewed()
      ensures (Model(), size, err) == Chunks.ReadSize(suite.setup, old(Model()))
    {
      hide Payloads, Flat, Streams.ReadFull, Sealing.DecodeSize, Sealing.SizeBytes, Streams.Pending, Streams.Delivered;
      ghost var st := reader.Model();
      Streams.ReadFullDelivers(st, Sealing.SizeBytes(suite.setup));
      var head;
      head, err := reader.ReadFull(Sealing.SizeBytes(suite.setup));
      if err != NoError {
        return 0, err;
      }
      label Read:
      var decoded := suite.DecodeSize(head);
      reader.Untouched@Read();
      if decoded.None? {
        return 0, Failure("invalid size");
      }
      size := decoded.value;
    }

    method Deliver() returns (mb: MultiBuffer, err: Error)
      requires Valid()
      modifies Repr()
      ensures Valid() && reader.Renewed()
      ensures Owned(mb) && Apart(mb, reader.buffer) && reader.OwnOrNew(mb)
      ensures (Model(), Streams.Outcome(Payloads(mb), err)) == Chunks.Deliver(old(Model()))
    {
      hide Payloads, Flat, Streams.ReadAtMost, Chunks.Deliver, Suite.Lane;
      Chunks.DeliverUnfold(Model());
      LaneApart();
      ghost var l := suite.Lane();
      var n;
      mb, err, n := Fetch();
      label Fetched:
      left := left - n;
      reader.Untouched@Fetched();
      Kept@Fetched(mb);
      assert suite.Lane() == l;
    }

    /** Up to what is left of the chunk, and how much it is. */
    method Fetch() returns (mb: MultiBuffer, err: Error, n: nat)
      requires Valid()
      modifies reader.Repr()
      ensures Valid() && reader.Renewed() && suite.Lane() == old(suite.Lane())
      ensures Owned(mb) && Apart(mb, reader.buffer) && reader.OwnOrNew(mb)
      ensures var (st, out) := Streams.ReadAtMost(old(reader.Model()), left);
              && reader.Model() == st && n == |Flat(out.mb)| && Payloads(mb) == (if n > 0 then out.mb else [])
              && err == if n > 0 then NoError else out.err
    {
      hide Payloads, Flat, Streams.ReadAtMost;
      LaneApart();
      mb, err := reader.ReadAtMost(left);
      label Read:
      mb, err, n := Settle(mb, err);
      reader.Untouched@Read();
    }
  }

  /** A list with content is delivered without an error; one without is dropped. */
  method Settle(mb: MultiBuffer, err: Error) returns (r: MultiBuffer, err': Error, n: nat)
    requires Owned(mb)
    ensures n == |Flat(old(Payloads(mb)))|
    ensures r == if n > 0 then mb else []
    ensures err' == if n > 0 then NoError else err
    ensures Owned(r) && Payloads(r) == if n > 0 then old(Payloads(mb)) else []
  {
    hide Payloads, Flat;
    n := Len(mb);
    Kept(mb);
    r, err' := mb, err;
    if n > 0 {
      err' := NoError;
    } else {
      r := [];
    }
  }

  class ChunkStreamWriter {
    const suite: Suite
    const writer: Sink

    constructor (suite: Suite, writer: Sink)
      ensures this.suite == suite && this.writer == writer
    {
      this.suite, this.writer := suite, writer;
    }

    /** WriteMultiBuffer: one write on the sink, holding every chunk. The source panics on a buffer
        longer than a chunk, and when the sizes cannot be sealed. */
    method WriteMultiBuffer(mb: MultiBuffer) returns (err: Error)
      requires suite.Valid() && Chunks.Ready(suite.setup, suite.Lane())
      requires Sealing.SizeBytes(suite.setup) <= SIZE
      requires Owned(mb) && Foreign(mb, suite) && Chunks.Splittable(Payloads(mb))
      modifies suite.Repr, writer, mb
      ensures err == NoError <==> !old(writer.Refuses())
      ensures writer.writes == if err != NoError then old(writer.writes) else
                old(writer.writes) + [Chunks.Write(suite.setup, old(suite.Lane()), old(Payloads(mb))).0]
      ensures suite.Lane() == Chunks.Write(suite.setup, old(suite.Lane()), old(Payloads(mb))).1
    {
      var out := Cut(mb);
      err := writer.WriteMultiBuffer(out);
    }

    /** The loop of WriteMultiBuffer. */
    method Cut(mb: MultiBuffer) returns (out: MultiBuffer)
      requires suite.Valid() && Chunks.Ready(suite.setup, suite.Lane())
      requires Sealing.SizeBytes(suite.setup) <= SIZE
      requires Owned(mb) && Foreign(mb, suite) && Chunks.Splittable(Payloads(mb))
      modifies suite.Repr, mb
      ensures Owned(out)
      ensures (Payloads(out), suite.Lane()) == Chunks.Write(suite.setup, old(suite.Lane()), old(Payloads(mb)))
    {
      hide Payloads, Chunks.Write;
      out := [];
      var left := mb;
      ghost var done: seq<Bytes>, ps := [], Payloads(mb);
      ghost var result := Chunks.Write(suite.setup, suite.Lane(), ps);
      var more := true;
      assert [] + result.0 == result.0;
      while more
        invariant Holding(out, left, done, ps) && Foreign(out, suite) && Foreign(left, suite)
        invariant |left| <= |mb| && left == mb[|mb| - |left|..]
        invariant forall b :: b in out ==> b in mb || (fresh(b) && fresh(b.v))
        invariant more ==> Chunks.Ready(suite.setup, suite.Lane()) && Chunks.Splittable(ps)
        invariant more ==> Onto(done, Chunks.Write(suite.setup, suite.Lane(), ps)) == result
        invariant !more ==> (done, suite.Lane()) == result
        decreases more, |Flat(ps)|
      {
        ghost var l, qs, before := suite.Lane(), ps, done;
        var n;
        out, left, n, more, done, ps := Round(suite, out, left, done, ps);
        OntoStep(suite.setup, l, qs, before, result);
      }
    }
  }

  /** One round of the loop: cut a slice, and put its encoded size in front of it. */
  method Round(suite: Suite, out: MultiBuffer, left: MultiBuffer, ghost done: seq<Bytes>, ghost ps: seq<Bytes>)
    returns (out': MultiBuffer, left': MultiBuffer, n: uint16, more: bool, ghost done': seq<Bytes>,
             ghost ps': seq<Bytes>)
    requires suite.Valid() && Chunks.Ready(suite.setup, suite.Lane())
    requires Sealing.SizeBytes(suite.setup) <= SIZE
    requires Holding(out, left, done, ps) && Foreign(out, suite) && Foreign(left, suite) && Chunks.Splittable(ps)
    modifies suite.Repr, left
    ensures Holding(out', left', done', ps') && Foreign(out', suite) && (more <==> Flat(ps') != [])
    ensures n == |Flat(Taken(ps, Chunks.SLICE))|
    ensures var (size, l) := Sealing.EncodeSize(suite.setup, old(suite.Lane()), n);
            && size.Some? && suite.Lane() == l
            && done' == done + ([size.value] + Taken(ps, Chunks.SLICE)) && ps' == Left(ps, Chunks.SLICE)
    ensures |left'| <= |left| && left' == left[|left| - |left'|..]
    ensures forall b :: b in out' ==> b in out || b in left || (fresh(b) && fresh(b.v))
  {
    hide Payloads, Taken, Left, Flat, Sealing.EncodeSize, Holding;
    Chunks.WriteUnfold(suite.setup, suite.Lane(), ps);
    var slice, len;
    slice, left', len, more := SplitSlice(out, left, done, ps);
    n := len;
    var b := Header(suite, n, out, left, done, ps);
    out' := out + ([b] + slice);
    done', ps' := done + ([b.Bytes()] + Taken(ps, Chunks.SLICE)), Left(ps, Chunks.SLICE);
    Joined(out, b, slice, left', done, ps);
  }

  /** The encoded size in a buffer of its own, beside the lists that are held. */
  method Header(suite: Suite, n: uint16, out: MultiBuffer, left: MultiBuffer, ghost done: seq<Bytes>,
                ghost ps: seq<Bytes>)
    returns (b: Buffer)
    requires suite.Valid() && Chunks.Ready(suite.setup, suite.Lane())
    requires Sealing.SizeBytes(suite.setup) <= SIZE
    requires Holding(out, left, done, ps) && Foreign(out, suite) && Foreign(left, suite)
    modifies suite.Repr
    ensures Holding(out, left, done, ps) && b.Valid() && fresh(b) && fresh(b.v)
    ensures (Some(b.Bytes()), suite.Lane()) == Sealing.EncodeSize(suite.setup, old(suite.Lane()), n)
  {
    hide Payloads, Sealing.EncodeSize;
    Sealing.SizeRoundTrip(suite.setup, suite.Lane(), n);
    var size := suite.EncodeSize(n);
    Kept(out);
    Kept(left);
    label Encoded:
    b := NewWith(size.value);
    Kept@Encoded(out);
    Kept@Encoded(left);
  }

  lemma Joined(out: MultiBuffer, b: Buffer, slice: MultiBuffer, rest: MultiBuffer, done: seq<Bytes>, ps: seq<Bytes>)
    requires Holding(out, slice + rest, done, ps)
    requires b.Valid() && forall x :: x in out + (slice + rest) ==> x != b && x.v != b.v
    ensures Holding(out + ([b] + slice), rest, done + ([b.Bytes()] + ps[..|slice|]), ps[|slice|..])
  {
    hide Payloads;
    OwnedSlices(slice + rest, |slice|);
    assert (slice + rest)[..|slice|] == slice && (slice + rest)[|slice|..] == rest;
    PayloadsOne(b);
    DistinctInsert(out, b, slice, rest);
    PayloadsAppend([b], slice);
    PayloadsAppend(out, [b] + slice);
  }

  lemma DistinctInsert(out: MultiBuffer, b: Buffer, slice: MultiBuffer, rest: MultiBuffer)
    requires Distinct(out + (slice + rest)) && forall x :: x in out + (slice + rest) ==> x != b && x.v != b.v
    ensures Distinct(out + ([b] + slice) + rest) && Distinct(out + ([b] + slice))
  {
    var all, was := out + ([b] + slice) + rest, out + (slice + rest);
    forall i, j | 0 <= i < j < |all| ensures all[i] != all[j] && all[i].v != all[j].v {
      var x := if i < |out| then i else i - 1;
      var y := if j < |out| then j else j - 1;
      assert all[i] == if i == |out| then b else was[x];
      assert all[j] == if j == |out| then b else was[y];
      assert i != |out| ==> was[x] in was;
      assert j != |out| ==> was[y] in was;
    }
    assert out + ([b] + slice) == all[..|out| + 1 + |slice|];
  }

  /** SplitSize(mb, 8192) beside the buffers already cut; with short buffers it moves whole ones. */
  method SplitSlice(out: MultiBuffer, left: MultiBuffer, ghost done: seq<Bytes>, ghost ps: seq<Bytes>)
    returns (slice: MultiBuffer, rest: MultiBuffer, n: nat, more: bool)
    requires Holding(out, left, done, ps) && Chunks.Splittable(ps)
    modifies left
    ensures slice + rest == left && Owned(slice) && Owned(rest) && Holding(out, left, done, ps)
    ensures Payloads(slice) == Taken(ps, Chunks.SLICE) == ps[..|slice|]
    ensures Payloads(rest) == Left(ps, Chunks.SLICE) == ps[|slice|..]
    ensures n == |Flat(Taken(ps, Chunks.SLICE))| && (more <==> Flat(Left(ps, Chunks.SLICE)) != [])
  {
    hide Payloads, Taken, Left, Flat, Distinct, Fit, Chunks.Splittable;
    SplitsWhole(ps);
    ApartWhenDistinct(out, left);
    HeadFits(left, ps);
    rest, slice := SplitSize(left, Chunks.SLICE);
    Kept(out);
    label Cut:
    n, more := Sizes(slice, rest);
    Kept@Cut(out);
    PayloadsAppend(slice, rest);
  }

  lemma HeadFits(left: MultiBuffer, ps: seq<Bytes>)
    requires Owned(left) && Payloads(left) == ps && Chunks.Splittable(ps)
    ensures left != [] ==> left[0].Len() <= Chunks.SLICE
  {
    assert left != [] ==> left[0].Len() == |ps[0]|;
  }

  method Sizes(slice: MultiBuffer, rest: MultiBuffer) returns (n: nat, more: bool)
    requires Owned(slice) && Owned(rest)
    ensures Owned(slice) && Owned(rest)
    ensures Payloads(slice) == old(Payloads(slice)) && Payloads(rest) == old(Payloads(rest))
    ensures n == |Flat(old(Payloads(slice)))| && (more <==> Flat(old(Payloads(rest))) != [])
  {
    hide Payloads, Flat;
    n := Len(slice);
    Kept(slice);
    Kept(rest);
    var empty := IsEmpty(rest);
    more := !empty;
    Kept(slice);
    Kept(rest);
  }

  lemma OntoStep(s: Sealing.Setup, l: Sealing.Lane, ps: seq<Bytes>, done: seq<Bytes>,
                 result: (seq<Bytes>, Sealing.Lane))
    requires Chunks.Ready(s, l) && Chunks.Splittable(ps) && Onto(done, Chunks.Write(s, l, ps)) == result
    ensures |Flat(Taken(ps, Chunks.SLICE))| <= Chunks.SLICE && Chunks.Splittable(Left(ps, Chunks.SLICE))
    ensures var (size, l1) := Sealing.EncodeSize(s, l, |Flat(Taken(ps, Chunks.SLICE))|);
            && size.Some? && Chunks.Ready(s, l1)
            && var done1 := done + ([size.value] + Taken(ps, Chunks.SLICE));
            && (Flat(Left(ps, Chunks.SLICE)) == [] ==> (done1, l1) == result)
            && (Flat(Left(ps, Chunks.SLICE)) != [] ==>
                  |Flat(Left(ps, Chunks.SLICE))| < |Flat(ps)| &&
                  Onto(done1, Chunks.Write(s, l1, Left(ps, Chunks.SLICE))) == result)
  {
    hide Chunks.Write, Taken, Left, Flat, Sealing.EncodeSize;
    Chunks.WriteUnfold(s, l, ps);
    var (size, l1) := Sealing.EncodeSize(s, l, |Flat(Taken(ps, Chunks.SLICE))|);
    if Flat(Left(ps, Chunks.SLICE)) != [] {
      var more := Chunks.Write(s, l1, Left(ps, Chunks.SLICE)).0;
      var head := [size.value] + Taken(ps, Chunks.SLICE);
      assert done + (head + more) == (done + head) + more;
    }
  }

  /** The writes so far, then what the rest of the loop writes. */
  ghost function Onto(done: seq<Bytes>, rest: (seq<Bytes>, Sealing.Lane)): (seq<Bytes>, Sealing.Lane) {
    (done + rest.0, rest.1)
  }

  /** No buffer of the list sits on a generator's slice. */
  ghost predicate Foreign(mb: MultiBuffer, suite: Suite) {
    forall b :: b in mb ==> b.v !in suite.Repr
  }

  /** Two lists that are held together: no buffer is in both. */
  ghost predicate Holding(a: MultiBuffer, b: MultiBuffer, ps: seq<Bytes>, qs: seq<Bytes>)
    reads a, b, Arrays(a), Arrays(b)
  {
    Owned(a) && Owned(b) && Distinct(a + b) && Payloads(a) == ps && Payloads(b) == qs
  }

  lemma SplitsWhole(ps: seq<Bytes>)
    requires Chunks.Splittable(ps)
    ensures Taken(ps, Chunks.SLICE) == ps[..Fit(ps, Chunks.SLICE)]
    ensures Left(ps, Chunks.SLICE) == ps[Fit(ps, Chunks.SLICE)..]
  {
  }
}
