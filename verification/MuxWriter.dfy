/** common/mux/writer.go: the writer of one session. */
module MuxWriters {
  import opened Bytes
  import opened Buffers
  import opened MultiBuffers
  import opened Addresses
  import opened Frames
  import opened FrameRecords
  import opened Writers
  import Chunks
  import MuxWrites
  import Notices

  /** writeMetaWithFrame, and the frame without data of writeMetaOnly: the metadata, the length of the
      data and the data go to the link in one write. */
  method WriteFrame(p: Parser, writer: Sink, meta: Metadata, hasData: bool, data: MultiBuffer,
                    ghost f: MuxWrites.Frame) returns (err: Error)
    requires Writable(meta) && ProperTarget(meta)
    requires Owned(data) && f == MuxWrites.Frame(meta, if hasData then Some(Payloads(data)) else None)
    requires !hasData ==> data == []
    modifies writer
    ensures var (l, e) := MuxWrites.Emit(p, old(writer.Model()), f);
            writer.Model() == l && (err == NoError <==> e == NoError)
  {
    hide Payloads, Flat, Encode, Distinct;
    BodyFits(p, meta);
    var frame := new Buffer.New();
    var rec := new FrameMetadata.With(meta);
    assert frame.Bytes() == [];
    err := rec.WriteTo(p, frame);
    Kept(data);
    if err != NoError {
      return Failure("cannot encode");
    }
    assert frame.Bytes() == Encode(p, meta).value;
    if hasData {
      var len := Len(data);
      Kept(data);
      var n := frame.Write(Be16(len % 0x1_0000));
      Kept(data);
    }
    assert frame.Bytes() == Encode(p, meta).value + MuxWrites.LenBytes(f);
    PayloadsOne(frame);
    DistinctCons(frame, data);
    PayloadsAppend([frame], data);
    err := writer.WriteMultiBuffer([frame] + data);
  }

  lemma BodyFits(p: Parser, m: Metadata)
    requires Writable(m) && ProperTarget(m)
    ensures Encode(p, m).Some? ==> |Encode(p, m).value| <= 266 <= SIZE - 2
  {
  }

  class MuxWriter {
    const p: Parser
    const dest: Destination
    const writer: Sink
    const id: uint16
    const packets: bool
    var followup: bool
    var hasError: bool

    ghost function Model(): MuxWrites.Writer
      reads this
    {
      MuxWrites.Writer(id, dest, packets, followup, hasError)
    }

    /** NewWriter. */
    constructor (p: Parser, id: uint16, dest: Destination, writer: Sink, packets: bool)
      ensures this.p == p && this.writer == writer
      ensures Model() == MuxWrites.Writer(id, dest, packets, false, false)
    {
      this.p, this.id, this.dest, this.writer, this.packets := p, id, dest, writer, packets;
      followup, hasError := false, false;
    }

    /** NewResponseWriter. */
    constructor Response(p: Parser, id: uint16, writer: Sink, packets: bool)
      ensures this.p == p && this.writer == writer
      ensures Model() == MuxWrites.Writer(id, Destination(None, 0, Unknown), packets, true, false)
    {
      this.p, this.id, this.dest, this.writer, this.packets := p, id, Destination(None, 0, Unknown), writer, packets;
      followup, hasError := true, false;
    }

    /** getNextFrameMeta: the first frame announces the session, even if it never gets onto the link. */
    method NextMeta() returns (meta: Metadata)
      modifies this
      ensures meta == MuxWrites.NextMeta(old(Model()))
      ensures Model() == old(Model()).(followup := true)
    {
      meta := Metadata(dest, id, 0, if followup then KEEP else NEW);
      followup := true;
    }

    method WriteMetaOnly() returns (err: Error)
      requires MuxWrites.Usable(Model())
      modifies this, writer
      ensures Model() == old(Model()).(followup := true)
      ensures var (l, e) := MuxWrites.Emit(p, old(writer.Model()), MuxWrites.NextFrame(old(Model()), None));
              writer.Model() == l && (err == NoError <==> e == NoError)
    {
      var meta := NextMeta();
      err := WriteFrame(p, writer, meta, false, [], MuxWrites.Frame(meta, None));
    }

    method WriteData(chunk: MultiBuffer) returns (err: Error)
      requires MuxWrites.Usable(Model()) && Owned(chunk)
      modifies this, writer
      ensures Model() == old(Model()).(followup := true)
      ensures var f := MuxWrites.NextFrame(old(Model()), Some(old(Payloads(chunk))));
              var (l, e) := MuxWrites.Emit(p, old(writer.Model()), f);
              writer.Model() == l && (err == NoError <==> e == NoError)
    {
      hide Payloads;
      var meta := NextMeta();
      Kept(chunk);
      meta := meta.(option := DATA);
      err := WriteFrame(p, writer, meta, true, chunk, MuxWrites.Frame(meta, Some(Payloads(chunk))));
    }

    /** WriteMultiBuffer. */
    method WriteMultiBuffer(mb: MultiBuffer) returns (err: Error)
      requires MuxWrites.Usable(Model()) && Owned(mb) && MuxWrites.Splittable(packets, Payloads(mb))
      modifies this, writer, mb
      ensures var (w, l, e) := MuxWrites.Write(p, old(Model()), old(writer.Model()), old(Payloads(mb)));
              Model() == w && writer.Model() == l && (err == NoError <==> e == NoError)
    {
      hide Payloads, Flat, MuxWrites.WriteData, MuxWrites.Emit;
      var empty := IsEmpty(mb);
      Kept(mb);
      if empty {
        err := WriteMetaOnly();
        return;
      }
      ghost var ps := Payloads(mb);
      ghost var result := MuxWrites.WriteData(p, Model(), writer.Model(), ps);
      var left := mb;
      err := NoError;
      while !empty && err == NoError
        invariant |left| <= |mb| && left == mb[|mb| - |left|..] && Owned(left) && Payloads(left) == ps
        invariant MuxWrites.Usable(Model()) && MuxWrites.Splittable(packets, ps)
        invariant empty <==> Flat(ps) == []
        invariant err == NoError ==> MuxWrites.WriteData(p, Model(), writer.Model(), ps) == result
        invariant err != NoError ==> Model() == result.0 && writer.Model() == result.1 && result.2 != NoError
        decreases MuxWrites.Size(ps)
      {
        ghost var w, l := Model(), writer.Model();
        MuxWrites.WriteDataUnfold(p, w, l, ps);
        left, err := Step(left, ps);
        ps := MuxWrites.Rest(packets, ps);
        label Written:
        empty := IsEmpty(left);
        Kept@Written(left);
      }
      if err == NoError {
        MuxWrites.WriteDataUnfold(p, Model(), writer.Model(), ps);
      }
    }

    /** One turn of the loop: cut a piece off and send it. */
    method Step(mb: MultiBuffer, ghost ps: seq<Bytes>) returns (rest: MultiBuffer, err: Error)
      requires MuxWrites.Usable(Model()) && Owned(mb) && Payloads(mb) == ps
      requires MuxWrites.Splittable(packets, ps) && Flat(ps) != []
      modifies this, writer, mb
      ensures |rest| <= |mb| && rest == mb[|mb| - |rest|..] && Owned(rest)
      ensures ps != [] && Payloads(rest) == MuxWrites.Rest(packets, ps)
      ensures Model() == old(Model()).(followup := true)
      ensures var f := MuxWrites.NextFrame(old(Model()), Some(MuxWrites.Cut(packets, ps)));
              var (l, e) := MuxWrites.Emit(p, old(writer.Model()), f);
              writer.Model() == l && (err == NoError <==> e == NoError)
    {
      hide Payloads, Flat, MuxWrites.Emit;
      MuxWrites.CutFacts(packets, ps);
      var chunk;
      label Start:
      rest, chunk := CutOff(mb, ps);
      label Cut:
      err := WriteData(chunk);
      Kept@Cut(rest);
    }

    method CutOff(mb: MultiBuffer, ghost ps: seq<Bytes>) returns (rest: MultiBuffer, chunk: MultiBuffer)
      requires Owned(mb) && Payloads(mb) == ps && MuxWrites.Splittable(packets, ps) && ps != []
      modifies mb
      ensures chunk + rest == mb && Owned(rest) && Owned(chunk)
      ensures Payloads(chunk) == MuxWrites.Cut(packets, ps) && Payloads(rest) == MuxWrites.Rest(packets, ps)
    {
      hide Payloads, Taken, Left;
      assert mb[0].Len() == |ps[0]|;
      if packets {
        rest, chunk := SplitFirst(mb);
        assert Payloads(chunk) == ps[..1] && Payloads(rest) == ps[1..];
      } else {
        rest, chunk := SplitSize(mb, Chunks.SLICE);
      }
    }

    /** Close: whatever becomes of the End frame. */
    method Close()
      modifies writer
      ensures writer.Model() == MuxWrites.CloseWriter(p, Model(), old(writer.Model()))
      ensures Notices.Told(old(writer.Model()), writer.Model(), id, hasError)
    {
      Notices.CloseTells(p, Model(), writer.Model());
      hide Notices.Told;
      var meta := Metadata(Destination(None, 0, Unknown), id, if hasError then ERROR else 0, END);
      var err := WriteFrame(p, writer, meta, false, [], MuxWrites.Frame(meta, None));
    }
  }
}
