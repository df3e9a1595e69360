/** common/mux/reader.go and common/buf/copy.go: the readers of one frame's data, and copying from them. */
module MuxReaders {
  import opened Bytes
  import opened Buffers
  import opened MultiBuffers
  import opened Nonces
  import opened Readers
  import opened Writers
  import opened ChunkStreams
  import Links
  import MuxReads
  import Streams

  class PacketReader {
    const reader: BufferedReader
    var eof: bool

    constructor (reader: BufferedReader)
      ensures this.reader == reader && !eof
    {
      this.reader, eof := reader, false;
    }

    method ReadMultiBuffer() returns (mb: MultiBuffer, err: Error)
      requires reader.Valid()
      modifies `eof, reader.Repr()
      ensures reader.Valid() && reader.Renewed()
      ensures Owned(mb) && Apart(mb, reader.buffer) && reader.OwnOrNew(mb)
      ensures (MuxReads.PacketReader(eof, reader.Model()), Streams.Outcome(Payloads(mb), err)) ==
                MuxReads.ReadPacket(old(eof), old(reader.Model()))
    {
      hide Payloads, Flat, Streams.ReadFull, Streams.Pending, Streams.Delivered, MuxReads.ReadSized;
      mb := [];
      if eof {
        PayloadsNone();
        reader.Untouched();
        return mb, EOF;
      }
      Streams.ReadFullDelivers(reader.Model(), 2);
      var head;
      head, err := reader.ReadFull(2);
      PayloadsNone();
      if err != NoError {
        return;
      }
      var size := FromBe16(head);
      if size > SIZE {
        return mb, Failure("packet size too large");
      }
      mb, err := ReadSized(reader, size);
      label Read:
      eof := err == NoError;
      reader.Untouched@Read();
      Kept@Read(mb);
    }
  }

  /** ReadFullFrom into a new buffer. */
  method ReadSized(reader: BufferedReader, n: nat) returns (mb: MultiBuffer, err: Error)
    requires reader.Valid() && n <= SIZE
    modifies reader.Repr()
    ensures reader.Valid() && reader.Renewed()
    ensures Owned(mb) && Apart(mb, reader.buffer) && forall b :: b in mb ==> fresh(b) && fresh(b.v)
    ensures (reader.Model(), Streams.Outcome(Payloads(mb), err)) == MuxReads.ReadSized(old(reader.Model()), n)
  {
    hide Payloads, Flat, Streams.ReadFull, Streams.Pending, Streams.Delivered;
    Streams.ReadFullDelivers(reader.Model(), n);
    var data;
    data, err := reader.ReadFull(n);
    if err != NoError {
      PayloadsNone();
      return [], err;
    }
    label Read:
    var b := NewWith(data);
    PayloadsOne(b);
    mb := [b];
    reader.Untouched@Read();
  }

  /** A reader of one frame's data, of either kind. */
  datatype FrameReader = Stream(chunks: ChunkStreamReader) | Packets(packets: PacketReader) {
    function Reader(): BufferedReader {
      match this
      case Stream(c) => c.reader
      case Packets(p) => p.reader
    }

    ghost function Owns(): set<object>
      reads Reader()
    {
      match this
      case Stream(c) => {c} + c.suite.Repr + c.reader.Repr()
      case Packets(p) => {p} + p.reader.Repr()
    }

    ghost predicate Valid()
      reads Reader(), Owns()
    {
      match this
      case Stream(c) => c.Valid() && c.suite.setup == MuxReads.PLAIN && c.max == 1
      case Packets(p) => p.reader.Valid()
    }

    ghost function Model(): MuxReads.Reader
      requires Valid()
      reads Reader(), Owns(), Arrays(Reader().buffer)
    {
      match this
      case Stream(c) => MuxReads.StreamReader(c.Model())
      case Packets(p) => MuxReads.PacketReader(p.eof, p.reader.Model())
    }
  }

  /** Session.NewReader. */
  method NewReader(packets: bool, reader: BufferedReader) returns (r: FrameReader)
    requires reader.Valid()
    ensures r.Valid() && r.Reader() == reader && fresh(r.Owns() - reader.Repr())
    ensures reader.Valid() && reader.Model() == old(reader.Model())
    ensures r.Model() == MuxReads.NewReader(packets, reader.Model())
  {
    if packets {
      var p := new PacketReader(reader);
      r := Packets(p);
    } else {
      var nonces := new BytesGenerator(Static, []);
      var sizeNonces := new BytesGenerator(Static, []);
      var suite := new Suite(MuxReads.PLAIN, nonces, sizeNonces, 0);
      var c := new ChunkStreamReader(suite, reader, 1);
      r := Stream(c);
    }
    reader.Untouched();
  }

  method ReadOnce(r: FrameReader) returns (mb: MultiBuffer, err: Error)
    requires r.Valid()
    modifies r.Owns()
    ensures r.Valid() && r.Reader().Renewed() && fresh(r.Owns() - old(r.Owns()))
    ensures Owned(mb) && Apart(mb, r.Reader().buffer) && r.Reader().OwnOrNew(mb)
    ensures (r.Model(), Streams.Outcome(Payloads(mb), err)) == MuxReads.ReadOnce(old(r.Model()))
  {
    match r
    case Stream(c) => mb, err := c.ReadMultiBuffer();
    case Packets(p) => mb, err := p.ReadMultiBuffer();
  }

  /** The link a copy writes to; null is buf.Discard. */
  ghost function Target(out: Sink?): Option<Links.Link>
    reads out
  {
    if out == null then None else Some(out.Model())
  }

  /** buf.Copy. A list without content is not written; Copy reports EOF as no error. */
  method Copy(r: FrameReader, out: Sink?) returns (e: MuxReads.Ended)
    requires r.Valid()
    modifies r.Owns(), if out == null then {} else {out}
    ensures r.Valid() && r.Reader().Renewed() && fresh(r.Owns() - old(r.Owns()))
    ensures (r.Model(), Target(out), e) == MuxReads.Copy(old(r.Model()), old(Target(out)))
  {
    hide Payloads, Flat, MuxReads.ReadOnce, MuxReads.Copy;
    ghost var result := MuxReads.Copy(r.Model(), Target(out));
    while true
      invariant r.Valid() && r.Reader().Renewed() && fresh(r.Owns() - old(r.Owns()))
      invariant MuxReads.Copy(r.Model(), Target(out)) == result
      decreases Streams.Work(MuxReads.StreamOf(r.Model()))
    {
      MuxReads.CopyUnfold(r.Model(), Target(out));
      var werr, err := CopyOnce(r, out);
      if werr != NoError {
        return MuxReads.WriteError(werr);
      }
      if err == EOF {
        return MuxReads.Done;
      }
      if err != NoError {
        return MuxReads.ReadError(err);
      }
    }
  }

  /** One turn of the loop: read a list, and pass it on. */
  method CopyOnce(r: FrameReader, out: Sink?) returns (werr: Error, err: Error)
    requires r.Valid()
    modifies r.Owns(), if out == null then {} else {out}
    ensures r.Valid() && r.Reader().Renewed() && fresh(r.Owns() - old(r.Owns()))
    ensures var (r1, o) := MuxReads.ReadOnce(old(r.Model()));
            && r.Model() == r1 && err == o.err && (Target(out), werr) == MuxReads.Pass(old(Target(out)), o.mb)
  {
    hide Payloads, Flat, MuxReads.ReadOnce, MuxReads.Pass, Links.Send, FrameReader.Model, FrameReader.Valid;
    OutApart(r, out);
    var mb;
    mb, err := ReadOnce(r);
    assert Target(out) == old(Target(out));
    OutApart(r, out);
    ghost var m := r.Model();
    werr := PassOn(out, mb);
    assert r.Valid() && r.Model() == m;
  }

  lemma OutApart(r: FrameReader, out: Sink?)
    ensures out !in r.Owns() && out !in Arrays(r.Reader().buffer)
    ensures var o: object? := out; o != r.Reader()
  {
  }

  method PassOn(out: Sink?, mb: MultiBuffer) returns (err: Error)
    requires Owned(mb)
    modifies if out == null then {} else {out}
    ensures (Target(out), err) == MuxReads.Pass(old(Target(out)), old(Payloads(mb)))
  {
    hide Payloads, Flat;
    var empty := IsEmpty(mb);
    Kept(mb);
    err := NoError;
    if out != null && !empty {
      err := out.WriteMultiBuffer(mb);
    }
  }
}
